/**
 * The pure parts of `loadTodos` and `saveTodos`: normalising every element of
 * the parsed array (threading the one-shot flag), dropping the rejects in
 * order, and rendering records into the stored shape.
 */
module TodoStorage {
  import opened Wrappers
  import opened JsValue
  import opened JsDate
  import opened Todos
  import opened Normalizer

  // ---------------------------------------------------------------------------
  // Load: normalise each element of the parsed array, then drop the rejections.

  /** The outcome of normalising a sequence of values one after another: the
      per-element results, the flag afterwards, and how many logs were emitted. */
  datatype Batch = Batch(results: seq<Option<Todo>>, warned: bool, logs: nat)

  function NormalizeEach(api: DateApi, vs: seq<Json>, warned: bool, dev: bool): (r: Batch)
    ensures |r.results| == |vs|
    ensures forall i | 0 <= i < |vs| :: r.results[i] == Verdict(api, vs[i])
    ensures r.logs <= 1
    ensures r.warned == (warned || r.logs == 1)
    ensures r.logs == 1 <==> !warned && dev && exists i | 0 <= i < |vs| :: WarnsAbout(api, vs[i])
    decreases |vs|
  {
    if vs == [] then Batch([], warned, 0)
    else
      var prefix := NormalizeEach(api, vs[..|vs| - 1], warned, dev);
      var last := Normalize(api, vs[|vs| - 1], prefix.warned, dev);
      Batch(prefix.results + [last.todo], last.warned, prefix.logs + if last.logged then 1 else 0)
  }

  /** The present values of a sequence of options, in order. */
  function Compact<T>(xs: seq<Option<T>>): (r: seq<T>)
    ensures |r| <= |xs|
    ensures forall k | 0 <= k < |r| :: Some(r[k]) in xs
    ensures forall i | 0 <= i < |xs| && xs[i].Some? :: xs[i].value in r
    decreases |xs|
  {
    if xs == [] then []
    else
      var init := Compact(xs[..|xs| - 1]);
      assert xs == xs[..|xs| - 1] + [xs[|xs| - 1]];
      match xs[|xs| - 1]
      case None => init
      case Some(t) => init + [t]
  }

  /** The ascending positions of the present values of `xs`. */
  function PresentPositions<T>(xs: seq<Option<T>>): seq<nat>
    decreases |xs|
  {
    if xs == [] then []
    else
      var init := PresentPositions(xs[..|xs| - 1]);
      if xs[|xs| - 1].Some? then init + [|xs| - 1] else init
  }

  /** `r` is `xs` with the absent values dropped, the survivors picked from the
      strictly ascending positions `ps`, which cover every present value. */
  ghost predicate OrderedSelection<T>(xs: seq<Option<T>>, r: seq<T>, ps: seq<nat>) {
    && |ps| == |r|
    && (forall k | 0 <= k < |ps| :: ps[k] < |xs| && xs[ps[k]] == Some(r[k]))
    && (forall k, l | 0 <= k < l < |ps| :: ps[k] < ps[l])
    && (forall i | 0 <= i < |xs| && xs[i].Some? :: i in ps)
  }

  lemma {:induction false} CompactIsOrderedSelection<T>(xs: seq<Option<T>>)
    ensures OrderedSelection(xs, Compact(xs), PresentPositions(xs))
    decreases |xs|
  {
    if xs != [] {
      var n := |xs| - 1;
      var init, x := xs[..n], xs[n];
      var r, ps := Compact(init), PresentPositions(init);
      assert init + [x] == xs;
      assert Compact(xs) == if x.Some? then r + [x.value] else r;
      assert PresentPositions(xs) == if x.Some? then ps + [|init|] else ps;
      CompactIsOrderedSelection(init);
      SelectionExtends(init, r, ps, x);
    }
  }

  /** Appending one option extends an ordered selection by its value, if any. */
  lemma SelectionExtends<T>(xs: seq<Option<T>>, r: seq<T>, ps: seq<nat>, x: Option<T>)
    requires OrderedSelection(xs, r, ps)
    ensures OrderedSelection(xs + [x], if x.Some? then r + [x.value] else r, if x.Some? then ps + [|xs|] else ps)
  {
    var xs' := xs + [x];
    var r' := if x.Some? then r + [x.value] else r;
    var ps' := if x.Some? then ps + [|xs|] else ps;
    forall k | 0 <= k < |ps'|
      ensures ps'[k] < |xs'| && xs'[ps'[k]] == Some(r'[k])
    {
      if k < |ps| {
        assert ps'[k] == ps[k] && r'[k] == r[k];
      }
    }
    forall i | 0 <= i < |xs'| && xs'[i].Some?
      ensures i in ps'
    {
      if i < |xs| {
        assert xs'[i] == xs[i];
        var k :| 0 <= k < |ps| && ps[k] == i;
        assert ps'[k] == i;
      } else {
        assert ps'[|ps|] == i;
      }
    }
  }

  /** Dropping the absent values distributes over concatenation. */
  lemma {:induction false} CompactAppend<T>(xs: seq<Option<T>>, ys: seq<Option<T>>)
    ensures Compact(xs + ys) == Compact(xs) + Compact(ys)
    decreases |ys|
  {
    if ys == [] {
      assert xs + ys == xs;
    } else {
      var n := |ys| - 1;
      var last := ys[n];
      assert (xs + ys)[..|xs + ys| - 1] == xs + ys[..n];
      assert (xs + ys)[|xs + ys| - 1] == last;
      CompactAppend(xs, ys[..n]);
      match last
      case None =>
      case Some(t) =>
        calc {
          Compact(xs + ys);
          Compact(xs + ys[..n]) + [t];
          Compact(xs) + (Compact(ys[..n]) + [t]);
        }
    }
  }

  /** What one call of `loadTodos` yields, with the normaliser's flag threaded
      through and its two kinds of diagnostic log reported. */
  datatype Loaded = Loaded(todos: seq<Todo>, warned: bool, malformedLogged: bool, loadErrorLogged: bool)

  /** The stored text is non-empty and parses to an array holding an accepted
      record whose dueDate is malformed: a load that asks for the diagnostic. */
  predicate LoadWarns(api: DateApi, jsonParse: string -> Option<Json>, stored: Option<string>) {
    && stored.Some? && stored.value != ""
    && jsonParse(stored.value).Some? && jsonParse(stored.value).value.JArr?
    && var items := jsonParse(stored.value).value.items;
       exists i | 0 <= i < |items| :: WarnsAbout(api, items[i])
  }

  /** `stored` is what the store returned for the fixed key (None for `null`);
      `jsonParse` is `JSON.parse` (None when it throws). */
  function LoadTodos(api: DateApi, jsonParse: string -> Option<Json>, stored: Option<string>,
                     warned: bool, dev: bool): (r: Loaded)
    ensures (stored == None || stored == Some("")) ==> r == Loaded([], warned, false, false)
    ensures r.todos != [] ==>
      stored.Some? && stored.value != "" && jsonParse(stored.value).Some? && jsonParse(stored.value).value.JArr?
    ensures r.loadErrorLogged <==> dev && stored.Some? && stored.value != "" && jsonParse(stored.value).None?
    // The flag is monotone; a malformed-data log needs a clear flag, dev mode
    // and a text that parses to an array, so no other path touches the flag.
    ensures r.warned == (warned || r.malformedLogged)
    ensures r.malformedLogged <==> !warned && dev && LoadWarns(api, jsonParse, stored)
  {
    if stored.None? || stored.value == "" then Loaded([], warned, false, false)
    else
      match jsonParse(stored.value)
      case None => Loaded([], warned, false, dev)
      case Some(JArr(items)) =>
        var batch := NormalizeEach(api, items, warned, dev);
        Loaded(Compact(batch.results), batch.warned, batch.logs == 1, false)
      case Some(_) => Loaded([], warned, false, false)
  }

  /** The records loaded from an array are exactly its elements' verdicts that
      are not rejections, in the array's order. */
  lemma LoadKeepsAcceptedInOrder(api: DateApi, jsonParse: string -> Option<Json>, text: string,
                                 items: seq<Json>, warned: bool, dev: bool)
    requires text != "" && jsonParse(text) == Some(JArr(items))
    ensures var verdicts := seq(|items|, i requires 0 <= i < |items| => Verdict(api, items[i]));
      && LoadTodos(api, jsonParse, Some(text), warned, dev).todos == Compact(verdicts)
      && OrderedSelection(verdicts, Compact(verdicts), PresentPositions(verdicts))
      && |LoadTodos(api, jsonParse, Some(text), warned, dev).todos| <= |items|
  {
    var verdicts := seq(|items|, i requires 0 <= i < |items| => Verdict(api, items[i]));
    var batch := NormalizeEach(api, items, warned, dev);
    assert batch.results == verdicts;
    LoadOfArray(api, jsonParse, text, items, warned, dev);
    CompactIsOrderedSelection(verdicts);
  }

  /** The flag after a series of loads, and how many malformed-data logs they emitted. */
  datatype Session = Session(warned: bool, logs: nat)

  /** Loads performed one after another share the flag: however many there
      are, exactly one malformed-data log is emitted among them when the flag
      starts clear, dev mode is on and some load asks for it, and none otherwise. */
  function LoadEach(api: DateApi, jsonParse: string -> Option<Json>, storedValues: seq<Option<string>>,
                    warned: bool, dev: bool): (r: Session)
    // At most one log; none at all once the flag is set.
    ensures r.logs <= 1
    ensures r.warned == (warned || r.logs == 1)
    ensures r.logs == 1 <==>
      !warned && dev && exists j | 0 <= j < |storedValues| :: LoadWarns(api, jsonParse, storedValues[j])
    decreases |storedValues|
  {
    if storedValues == [] then Session(warned, 0)
    else
      var prefix := LoadEach(api, jsonParse, storedValues[..|storedValues| - 1], warned, dev);
      var last := LoadTodos(api, jsonParse, storedValues[|storedValues| - 1], prefix.warned, dev);
      Session(last.warned, prefix.logs + if last.malformedLogged then 1 else 0)
  }

  // ---------------------------------------------------------------------------
  // Save: each record, with `createdAt` rendered by `toIsoString`.

  /** A record in the shape written to the store: `createdAt` is an ISO string. */
  datatype StoredTodo = StoredTodo(
    id: Json,
    title: Json,
    description: Json,
    completed: bool,
    createdAt: string,
    dueDate: Option<string>)

  function ToStored(api: DateApi, t: Todo): StoredTodo {
    StoredTodo(t.id, t.title, t.description, t.completed, api.toIsoString(t.createdAt), t.dueDate)
  }

  function SaveTodos(api: DateApi, ts: seq<Todo>): (r: seq<StoredTodo>)
    ensures |r| == |ts|
    ensures forall i | 0 <= i < |ts| ::
      && r[i].id == ts[i].id
      && r[i].title == ts[i].title
      && r[i].description == ts[i].description
      && r[i].completed == ts[i].completed
      && r[i].dueDate == ts[i].dueDate
      && r[i].createdAt == api.toIsoString(ts[i].createdAt)
    decreases |ts|
  {
    if ts == [] then []
    else SaveTodos(api, ts[..|ts| - 1]) + [ToStored(api, ts[|ts| - 1])]
  }

  /** The parsed value of the JSON text `JSON.stringify` writes for a stored
      record; an undefined dueDate is omitted. */
  function StoredJson(s: StoredTodo): Json {
    var base := map[
      "id" := s.id,
      "title" := s.title,
      "description" := s.description,
      "completed" := JBool(s.completed),
      "createdAt" := JStr(s.createdAt)];
    match s.dueDate
    case None => JObj(base)
    case Some(d) => JObj(base["dueDate" := JStr(d)])
  }

  function StoredArrayJson(ss: seq<StoredTodo>): Json {
    JArr(seq(|ss|, i requires 0 <= i < |ss| => StoredJson(ss[i])))
  }

  /** A record survives being saved and loaded back unchanged. */
  predicate Reloadable(api: DateApi, t: Todo) {
    && Truthy(t.id)
    && Truthy(t.title)
    && (Truthy(t.description) || t.description == JStr(""))
    && IsoReparses(api, t.createdAt)
    && (t.dueDate.Some? ==> IsDueDateShape(t.dueDate.value) && IsValidDateString(api, t.dueDate.value))
  }

  /** Normalising a stored record gives the record back, without logging,
      exactly when the record is Reloadable. */
  lemma StoredRecordReloads(api: DateApi, t: Todo, warned: bool, dev: bool)
    ensures Normalize(api, StoredJson(ToStored(api, t)), warned, dev).todo == Some(t) <==> Reloadable(api, t)
    ensures Reloadable(api, t) ==> Normalize(api, StoredJson(ToStored(api, t)), warned, dev) == Normalized(Some(t), warned, false)
  {
    var v := StoredJson(ToStored(api, t));
    var r := Normalize(api, v, warned, dev);
    if r.todo == Some(t) {
      assert Prop(v, "dueDate") == if t.dueDate.Some? then Some(JStr(t.dueDate.value)) else None;
    }
  }

  /** Saving records and loading the saved array back yields the same records
      and emits no log, provided the JSON text round-trips to the saved value. */
  lemma {:induction false} SaveThenLoad(api: DateApi, jsonParse: string -> Option<Json>, text: string,
                                        ts: seq<Todo>, warned: bool, dev: bool)
    requires forall i | 0 <= i < |ts| :: Reloadable(api, ts[i])
    requires text != "" && jsonParse(text) == Some(StoredArrayJson(SaveTodos(api, ts)))
    ensures LoadTodos(api, jsonParse, Some(text), warned, dev) == Loaded(ts, warned, false, false)
  {
    var items := StoredArrayJson(SaveTodos(api, ts)).items;
    assert jsonParse(text) == Some(JArr(items));
    SaveThenNormalize(api, ts, warned, dev);
    var batch := NormalizeEach(api, items, warned, dev);
    CompactOfPresent(ts);
    assert Compact(batch.results) == ts;
    LoadOfArray(api, jsonParse, text, items, warned, dev);
  }

  /** Proof helper: unfolds `LoadTodos` on a non-empty text that parses to an
      array, so that callers need not make the solver do it. */
  lemma LoadOfArray(api: DateApi, jsonParse: string -> Option<Json>, text: string,
                    items: seq<Json>, warned: bool, dev: bool)
    requires text != "" && jsonParse(text) == Some(JArr(items))
    ensures var batch := NormalizeEach(api, items, warned, dev);
      LoadTodos(api, jsonParse, Some(text), warned, dev) == Loaded(Compact(batch.results), batch.warned, batch.logs == 1, false)
  {
  }

  lemma SaveThenNormalize(api: DateApi, ts: seq<Todo>, warned: bool, dev: bool)
    requires forall i | 0 <= i < |ts| :: Reloadable(api, ts[i])
    ensures var b := NormalizeEach(api, StoredArrayJson(SaveTodos(api, ts)).items, warned, dev);
      && b.results == seq(|ts|, i requires 0 <= i < |ts| => Some(ts[i]))
      && b.warned == warned
      && b.logs == 0
  {
    var items := StoredArrayJson(SaveTodos(api, ts)).items;
    forall k | 0 <= k < |ts|
      ensures Verdict(api, items[k]) == Some(ts[k]) && !WarnsAbout(api, items[k])
    {
      assert items[k] == StoredJson(ToStored(api, ts[k]));
      StoredRecordReloads(api, ts[k], true, false);
      StoredRecordReloads(api, ts[k], false, true);
    }
  }

  lemma {:induction false} CompactOfPresent<T>(ts: seq<T>)
    ensures Compact(seq(|ts|, i requires 0 <= i < |ts| => Some(ts[i]))) == ts
    decreases |ts|
  {
    if ts != [] {
      var n := |ts| - 1;
      var xs := seq(|ts|, i requires 0 <= i < |ts| => Some(ts[i]));
      assert xs[..n] == seq(|ts[..n]|, i requires 0 <= i < |ts[..n]| => Some(ts[..n][i]));
      CompactOfPresent(ts[..n]);
      assert ts == ts[..n] + [ts[n]];
    }
  }

  /** A record the normaliser produced survives a save and a reload, provided
      the platform's ISO rendering parses back to the same instant. */
  lemma NormalizedIsReloadable(api: DateApi, v: Json, t: Todo)
    requires Verdict(api, v) == Some(t)
    requires IsoReparses(api, t.createdAt)
    ensures Reloadable(api, t)
  {
  }

  /** Saving what was loaded and loading it again gives the same records and
      no log, provided the JSON text round-trips and the platform's ISO
      rendering of each loaded instant parses back to it. */
  lemma LoadSaveLoad(api: DateApi, jsonParse: string -> Option<Json>, text: Option<string>, warned: bool, dev: bool,
                     text2: string, warned2: bool, dev2: bool)
    requires var loaded := LoadTodos(api, jsonParse, text, warned, dev).todos;
      && (forall k | 0 <= k < |loaded| :: IsoReparses(api, loaded[k].createdAt))
      && text2 != ""
      && jsonParse(text2) == Some(StoredArrayJson(SaveTodos(api, loaded)))
    ensures LoadTodos(api, jsonParse, Some(text2), warned2, dev2)
            == Loaded(LoadTodos(api, jsonParse, text, warned, dev).todos, warned2, false, false)
  {
    var loaded := LoadTodos(api, jsonParse, text, warned, dev).todos;
    if loaded != [] {
      var items := jsonParse(text.value).value.items;
      var verdicts := seq(|items|, i requires 0 <= i < |items| => Verdict(api, items[i]));
      LoadKeepsAcceptedInOrder(api, jsonParse, text.value, items, warned, dev);
      forall k | 0 <= k < |loaded|
        ensures Reloadable(api, loaded[k])
      {
        assert Some(loaded[k]) in verdicts;
        var i :| 0 <= i < |verdicts| && verdicts[i] == Some(loaded[k]);
        NormalizedIsReloadable(api, items[i], loaded[k]);
      }
    }
    SaveThenLoad(api, jsonParse, text2, loaded, warned2, dev2);
  }
}
