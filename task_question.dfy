/** The list of questions of a task as educators and administrators see it: how a
    question's stored options are shown, and who may edit or delete a question. */
module TaskQuestion {
  import opened JsValue
  import opened MasterData

  /** One option as shown: its text and whether it is marked as the correct one. */
  datatype Shown = Shown(text: Value, isCorrect: bool)

  /** What the options cell shows: the dash placeholder, or the options in order. */
  datatype OptionsCell = Placeholder | Listed(options: seq<Shown>)

  /** `typeof opt === 'object' && opt !== null`: objects and arrays. */
  predicate IsObjectLike(opt: Value) {
    opt.Obj? || opt.Arr?
  }

  /** An option's text: for an object the first truthy of `content`, `text` and `option`
      (or ''), for anything else `String(opt)`. */
  function OptionText(opt: Value): (text: Value)
    ensures IsObjectLike(opt) && Truthy(Get(opt, "content")) ==> text == Get(opt, "content")
    ensures IsObjectLike(opt) && !Truthy(Get(opt, "content")) && Truthy(Get(opt, "text")) ==> text == Get(opt, "text")
    ensures IsObjectLike(opt) && !Truthy(Get(opt, "content")) && !Truthy(Get(opt, "text")) ==> text == Or(Get(opt, "option"), Str(""))
    ensures !IsObjectLike(opt) ==> text == Str(ToJsString(opt))
  {
    if IsObjectLike(opt) then Or(Or(Or(Get(opt, "content"), Get(opt, "text")), Get(opt, "option")), Str(""))
    else Str(ToJsString(opt))
  }

  /** `opt.answer === true || opt.isCorrect === true` for an object; never for anything else. */
  function OptionCorrect(opt: Value): (correct: bool)
    ensures correct <==> IsObjectLike(opt) && (Get(opt, "answer") == Bool(true) || Get(opt, "isCorrect") == Bool(true))
  {
    IsObjectLike(opt) && (StrictEquals(Get(opt, "answer"), Bool(true)) || StrictEquals(Get(opt, "isCorrect"), Bool(true)))
  }

  /** The rendered options: each option whose text is empty is left out, the others are shown
      in their order. */
  function ShownOptions(items: seq<Value>): (r: seq<Shown>)
    ensures |r| <= |items|
    ensures forall s :: s in r ==> Truthy(s.text)
    ensures forall s :: s in r ==> exists opt :: opt in items && s == Shown(OptionText(opt), OptionCorrect(opt))
  {
    if items == [] then []
    else
      var last := items[|items| - 1];
      var init := ShownOptions(items[..|items| - 1]);
      assert forall opt :: opt in items[..|items| - 1] ==> opt in items;
      init + (if Truthy(OptionText(last)) then [Shown(OptionText(last), OptionCorrect(last))] else [])
  }

  /** Showing a list is showing its parts one after the other: the order of the options is
      kept. */
  lemma {:induction false} ShownOptionsAppend(a: seq<Value>, b: seq<Value>)
    ensures ShownOptions(a + b) == ShownOptions(a) + ShownOptions(b)
  {
    if b == [] {
      assert a + b == a;
    } else {
      var init := b[..|b| - 1];
      ShownOptionsAppend(a, init);
      assert (a + b)[..|a + b| - 1] == a + init;
    }
  }

  /** A single option is shown exactly when its text is not empty. */
  lemma ShownOptionsOne(opt: Value)
    ensures ShownOptions([opt]) == if Truthy(OptionText(opt)) then [Shown(OptionText(opt), OptionCorrect(opt))] else []
  {
    assert [opt][..0] == [];
  }

  /** A text option (a string or number in the list) is shown as its own text and is never
      marked correct. */
  lemma PlainOptionNeverCorrect(opt: Value)
    requires opt.Str? || opt.Num? || opt.Bool?
    ensures !OptionCorrect(opt)
    ensures OptionText(opt) == Str(ToJsString(opt))
  {
  }

  /** `parseOptions(optionsStr)`. `parsed` is what `JSON.parse(optionsStr)` gives for a
      string (`None` when it throws). */
  function ParseOptions(optionsStr: Value, parsed: Option<Value>): (cell: OptionsCell)
    ensures !Truthy(optionsStr) || optionsStr == Str("null") || optionsStr == Str("undefined") ==> cell == Placeholder
    ensures optionsStr.Str? && parsed.None? ==> cell == Placeholder
    ensures cell.Listed? ==> optionsStr.Str? ==> parsed.Some? && parsed.value.Arr? && parsed.value.items != []
    ensures cell.Listed? ==> !optionsStr.Str? ==> optionsStr.Arr? && optionsStr.items != []
    ensures cell.Listed? ==> cell.options == ShownOptions(if optionsStr.Str? then parsed.value.items else optionsStr.items)
  {
    if !Truthy(optionsStr) || optionsStr == Str("null") || optionsStr == Str("undefined") then Placeholder
    else if optionsStr.Str? && parsed.None? then Placeholder
    else
      var options := if optionsStr.Str? then parsed.value else optionsStr;
      if options.Arr? && |options.items| > 0 then Listed(ShownOptions(options.items))
      else Placeholder
  }

  /** The placeholder is shown exactly for an empty, `'null'` or `'undefined'` value, text
      that does not parse, and a value that is not a non-empty list. */
  lemma PlaceholderExactly(optionsStr: Value, parsed: Option<Value>)
    ensures ParseOptions(optionsStr, parsed) == Placeholder <==>
      !Truthy(optionsStr) || optionsStr == Str("null") || optionsStr == Str("undefined")
      || (optionsStr.Str? && (parsed.None? || !parsed.value.Arr? || parsed.value.items == []))
      || (!optionsStr.Str? && (!optionsStr.Arr? || optionsStr.items == []))
  {
  }

  /** The edit and delete buttons of a row. */
  datatype RowActions = RowActions(edit: bool, delete: bool)

  /** `renderActionColumn({edit, delete})`: an educator gets each button as far as the
      permission for it is held; anyone else gets neither. */
  function RowActionsFor(role: Role, canUpdate: bool, canDelete: bool): (acts: RowActions)
    ensures acts.edit <==> IsEducator(role) && canUpdate
    ensures acts.delete <==> IsEducator(role) && canDelete
  {
    if IsEducator(role) then RowActions(canUpdate, canDelete) else RowActions(false, false)
  }

  /** An administrator only reads the list, whatever permissions it holds. */
  lemma AdminOnlyReads(canUpdate: bool, canDelete: bool)
    ensures RowActionsFor(Admin, canUpdate, canDelete) == RowActions(false, false)
  {
  }
}
