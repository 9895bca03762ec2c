/** The create/edit form of a task: which kind the record being edited is, the automatic
    name of a new task, the editor of introduction sections, the submitted payload and the
    preview's line formatter. A section is a plain object with `title` and `content`. */
module TaskForm {
  import opened SeqFacts
  import opened Text
  import opened JsValue
  import opened MasterData
  import TaskList

  /** `{ title: '', content: '' }` */
  const EmptySection: Value := Obj([Field("title", Str("")), Field("content", Str(""))])

  /** An object carrying both a `title` and a `content` property. */
  predicate IsSection(v: Value) {
    v.Obj? && HasKey(v.fields, "title") && HasKey(v.fields, "content")
  }

  lemma EmptySectionIsSection()
    ensures IsSection(EmptySection) && Get(EmptySection, "title") == Str("")
  {
    assert EmptySection.fields[0].key == "title";
    assert EmptySection.fields[1].key == "content";
  }

  /** A section whose two fields hold strings, as every section typed into the editor does. */
  predicate IsTextSection(v: Value) {
    IsSection(v) && Get(v, "title").Str? && Get(v, "content").Str?
  }

  // ---------------------------------------------------------------------------------
  // Introduction sections.

  /** `sections.filter((_, i) => i !== index)` */
  function WithoutIndex(sections: seq<Value>, index: int): (r: seq<Value>)
    ensures 0 <= index < |sections| ==> |r| == |sections| - 1
    ensures 0 <= index < |sections| ==> forall i :: 0 <= i < index ==> r[i] == sections[i]
    ensures 0 <= index < |sections| ==> forall i :: index < i < |sections| ==> r[i - 1] == sections[i]
    ensures !(0 <= index < |sections|) ==> r == sections
  {
    if 0 <= index < |sections| then sections[..index] + sections[index + 1..] else sections
  }

  /** Whether `normalizeIntroduction` keeps a section: its title, or else its content, is not
      blank. `None` when a field it reads is not a string, so `trim` throws. */
  function KeepSection(section: Value): (keep: Option<bool>)
    ensures IsTextSection(section) ==> keep.Some?
  {
    var title := Get(section, "title");
    if !title.Str? then None
    else if !AllSpace(title.s) then Some(true)
    else
      var content := Get(section, "content");
      if !content.Str? then None else Some(!AllSpace(content.s))
  }

  /** The blank test is the source's `trim() !== ''` test: a section is kept exactly when its
      trimmed title, or else its trimmed content, is not empty. */
  lemma KeepSectionMeaning(section: Value)
    requires Get(section, "title").Str?
    ensures Get(section, "content").Str? ==>
      (KeepSection(section) == Some(true) <==>
        Trim(Get(section, "title").s) != "" || Trim(Get(section, "content").s) != "")
    ensures Trim(Get(section, "title").s) != "" ==> KeepSection(section) == Some(true)
  {
    var title := Get(section, "title");
    var content := Get(section, "content");
    TrimEmptyIffBlank(title.s);
    if content.Str? { TrimEmptyIffBlank(content.s); }
  }

  /** `normalizeIntroduction`: the sections worth keeping, in order; `None` when it throws. */
  function NormalizeIntroduction(sections: seq<Value>): (r: Option<seq<Value>>)
    ensures r.None? <==> exists s :: s in sections && KeepSection(s).None?
    ensures r.Some? ==> forall s :: s in r.value <==> s in sections && KeepSection(s) == Some(true)
    ensures r.Some? ==> |r.value| <= |sections|
  {
    if sections == [] then Some([])
    else
      var rest := NormalizeIntroduction(sections[..|sections| - 1]);
      var last := sections[|sections| - 1];
      var keep := KeepSection(last);
      assert sections == sections[..|sections| - 1] + [last];
      if rest.None? || keep.None? then None
      else Some(rest.value + (if keep.value then [last] else []))
  }

  /** Normalising keeps the order of the sections: the sections of two lists in a row
      normalise to the first list's kept sections followed by the second's, and the whole
      throws exactly when either part does. */
  lemma {:induction false} NormalizeAppend(a: seq<Value>, b: seq<Value>)
    ensures NormalizeIntroduction(a + b) ==
      if NormalizeIntroduction(a).Some? && NormalizeIntroduction(b).Some?
      then Some(NormalizeIntroduction(a).value + NormalizeIntroduction(b).value)
      else None
    decreases |b|
  {
    if b == [] {
      assert a + b == a;
      assert NormalizeIntroduction(b) == Some([]);
      if NormalizeIntroduction(a).Some? {
        assert NormalizeIntroduction(a).value + [] == NormalizeIntroduction(a).value;
      }
    } else {
      var init := b[..|b| - 1];
      var last := b[|b| - 1];
      var keep := KeepSection(last);
      var tail := if keep == Some(true) then [last] else [];
      NormalizeAppend(a, init);
      assert (a + b)[..|a + b| - 1] == a + init;
      assert (a + b)[|a + b| - 1] == last;
      var ab, i, bb := NormalizeIntroduction(a + init), NormalizeIntroduction(init), NormalizeIntroduction(b);
      assert NormalizeIntroduction(a + b) == if ab.None? || keep.None? then None else Some(ab.value + tail);
      assert bb == if i.None? || keep.None? then None else Some(i.value + tail);
      if ab.Some? && keep.Some? {
        assert ab.value + tail == NormalizeIntroduction(a).value + (i.value + tail);
      }
    }
  }

  /** One section normalises to itself when it is kept, to nothing when it is blank, and
      throws when a field it reads is not a string. */
  lemma NormalizeOne(section: Value)
    ensures KeepSection(section).None? ==> NormalizeIntroduction([section]).None?
    ensures KeepSection(section) == Some(true) ==> NormalizeIntroduction([section]) == Some([section])
    ensures KeepSection(section) == Some(false) ==> NormalizeIntroduction([section]) == Some([])
  {
    var one := [section];
    assert one[..0] == [] && one[0] == section;
    assert NormalizeIntroduction(one[..0]) == Some([]);
    assert [] + [section] == one;
    var tail: seq<Value> := if KeepSection(section) == Some(true) then one else [];
    assert NormalizeIntroduction(one) == if KeepSection(section).None? then None else Some([] + tail);
  }

  /** Sections that are all worth keeping pass through unchanged. */
  lemma {:induction false} NormalizeKeepsKept(sections: seq<Value>)
    requires forall i :: 0 <= i < |sections| ==> KeepSection(sections[i]) == Some(true)
    ensures NormalizeIntroduction(sections) == Some(sections)
  {
    if sections != [] {
      var init := sections[..|sections| - 1];
      var last := sections[|sections| - 1];
      NormalizeKeepsKept(init);
      assert init + [last] == sections;
    }
  }

  /** Normalising twice changes nothing more. */
  lemma NormalizeIdempotent(sections: seq<Value>)
    requires NormalizeIntroduction(sections).Some?
    ensures NormalizeIntroduction(NormalizeIntroduction(sections).value) == NormalizeIntroduction(sections)
  {
    var kept := NormalizeIntroduction(sections).value;
    assert forall i :: 0 <= i < |kept| ==> kept[i] in kept;
    NormalizeKeepsKept(kept);
  }

  /** Sections typed into the editor can always be normalised. */
  lemma TextSectionsNormalize(sections: seq<Value>)
    requires forall s :: s in sections ==> IsTextSection(s)
    ensures NormalizeIntroduction(sections).Some?
  {
  }

  /** `parseIntroduction(introData)`, with `parsed` the outcome of `JSON.parse` on it when it
      is a string (`None` for a syntax error). Never empty: the default is one empty section. */
  function ParseIntroduction(introData: Value, parsed: Option<Value>): (r: seq<Value>)
    ensures |r| >= 1
    ensures forall v :: v in r ==> IsSection(v)
    ensures !Truthy(introData) ==> r == [EmptySection]
    ensures introData.Str? && introData.s != "" && parsed.None? ==> r == [EmptySection]
    ensures introData.Str? && introData.s != "" && parsed.Some? && !parsed.value.Arr? ==> r == [EmptySection]
    ensures introData.Str? && introData.s != "" && parsed.Some? && parsed.value.Arr? ==>
      r == if SectionsOf(parsed.value.items) != [] then SectionsOf(parsed.value.items) else [EmptySection]
    ensures Truthy(introData) && !introData.Str? ==>
      r == if introData.Arr? && SectionsOf(introData.items) != [] then SectionsOf(introData.items) else [EmptySection]
  {
    EmptySectionIsSection();
    if !Truthy(introData) then [EmptySection]
    else
      var value := if introData.Str? then parsed else Some(introData);
      if value.None? || !value.value.Arr? then [EmptySection]
      else
        var kept := SectionsOf(value.value.items);
        if |kept| > 0 then kept else [EmptySection]
  }

  /** `items.filter(item => item && typeof item === 'object' && 'title' in item && 'content' in item)` */
  function SectionsOf(items: seq<Value>): (kept: seq<Value>)
    ensures forall v :: v in kept <==> v in items && IsSection(v)
    ensures |kept| <= |items|
  {
    if items == [] then []
    else
      var last := items[|items| - 1];
      assert items == items[..|items| - 1] + [last];
      SectionsOf(items[..|items| - 1]) + (if IsSection(last) then [last] else [])
  }

  /** The sections kept from a list keep its order: those of two lists in a row are the first list's followed by the second's. */
  lemma {:induction false} SectionsOfAppend(a: seq<Value>, b: seq<Value>)
    ensures SectionsOf(a + b) == SectionsOf(a) + SectionsOf(b)
    decreases |b|
  {
    if b == [] {
      AppendEmpty(a);
      AppendEmpty(SectionsOf(a));
    } else {
      var init := b[..|b| - 1];
      var last := b[|b| - 1];
      var tail := if IsSection(last) then [last] else [];
      SplitLast(a, b);
      SectionsOfAppend(a, init);
      AppendAssoc(SectionsOf(a), SectionsOf(init), tail);
    }
  }

  lemma {:induction false} SectionsOfKeepsSections(items: seq<Value>)
    requires forall v :: v in items ==> IsSection(v)
    ensures SectionsOf(items) == items
  {
    if items != [] {
      var init := items[..|items| - 1];
      var last := items[|items| - 1];
      assert items == init + [last];
      assert IsSection(last);
      forall v | v in init ensures IsSection(v) {
        assert v in items;
      }
      SectionsOfKeepsSections(init);
      assert SectionsOf(items) == SectionsOf(init) + [last];
    }
  }

  /** What the form stores is what it loads back: the introduction JSON written for a
      non-empty list of sections parses back to exactly those sections. `sections` stands
      for `JSON.parse(JSON.stringify(sections))`. */
  lemma IntroductionRoundTrip(json: string, sections: seq<Value>)
    requires json != "" && |sections| >= 1
    requires forall v :: v in sections ==> IsSection(v)
    ensures ParseIntroduction(Str(json), Some(Arr(sections))) == sections
  {
    SectionsOfKeepsSections(sections);
  }

  // ---------------------------------------------------------------------------------
  // The submitted payload.

  /** What `handleSubmit` writes as `introduction`: '' or the JSON text of the sections. */
  datatype Introduction = NoIntroduction | IntroductionJson(sections: seq<Value>)

  /** The form's field values; `None` for a field never filled in. */
  datatype FormValues = FormValues(
    name: Option<string>, title: Option<string>,
    description: Option<string>, content: Option<string>,
    maxErrors: Value)

  /** The record being edited, as loaded. */
  datatype TaskDetail = TaskDetail(
    name: string, kind: int, parent: Option<TaskList.ParentRef>, introduction: Value)

  datatype TaskPayload = TaskPayload(
    name: string, title: string, description: string, content: string,
    kind: int, maxErrors: Value, simulationId: int, introduction: Introduction,
    imagePath: string, videoPath: string, filePath: string,
    parentId: Option<int>)

  /** `values.x?.trim() || ''` */
  function TrimmedOrEmpty(v: Option<string>): (r: string)
    ensures v.None? ==> r == ""
    ensures v.Some? ==> r == Trim(v.value)
  {
    if v.Some? then Trim(v.value) else ""
  }

  /** `handleSubmit`'s payload; `None` when normalising the introduction throws. Paths are ''
      when nothing was uploaded. */
  function SubmitPayload(
    values: FormValues, isEditing: bool, detail: Option<TaskDetail>,
    taskKind: int, parentTaskInfo: Option<TaskList.ParentRef>, sections: seq<Value>,
    simulationId: int, imagePath: string, videoPath: string, filePath: string): (p: Option<TaskPayload>)
    requires isEditing ==> detail.Some?
    ensures p.None? <==> NormalizeIntroduction(sections).None?
    ensures p.Some? ==>
      && p.value.name == TrimmedOrEmpty(values.name) && p.value.title == TrimmedOrEmpty(values.title)
      && p.value.description == TrimmedOrEmpty(values.description) && p.value.content == TrimmedOrEmpty(values.content)
      && p.value.simulationId == simulationId
      && p.value.imagePath == imagePath && p.value.videoPath == videoPath && p.value.filePath == filePath
      && (p.value.introduction.NoIntroduction? <==> NormalizeIntroduction(sections).value == [])
      && (p.value.introduction.IntroductionJson? ==> p.value.introduction.sections == NormalizeIntroduction(sections).value)
      && p.value.kind == (if isEditing then detail.value.kind else taskKind)
      && (p.value.parentId.Some? ==> p.value.kind == SUBTASK)
      && (p.value.kind == SUBTASK && parentTaskInfo.Some? ==> p.value.parentId == Some(parentTaskInfo.value.id))
      && (p.value.kind == SUBTASK && parentTaskInfo.None? && detail.Some? && detail.value.parent.Some? && detail.value.parent.value.id != 0
          ==> p.value.parentId == Some(detail.value.parent.value.id))
      && (p.value.kind == SUBTASK && parentTaskInfo.None? && (detail.None? || detail.value.parent.None? || detail.value.parent.value.id == 0)
          ==> p.value.parentId.None?)
      && (Truthy(values.maxErrors) ==> p.value.maxErrors == values.maxErrors)
      && (!Truthy(values.maxErrors) ==> p.value.maxErrors == Num(0))
  {
    var normalized := NormalizeIntroduction(sections);
    if normalized.None? then None
    else
      var kind := if isEditing then detail.value.kind else taskKind;
      var parentId :=
        if kind != SUBTASK then None
        else if parentTaskInfo.Some? then Some(parentTaskInfo.value.id)
        else if detail.Some? && detail.value.parent.Some? && detail.value.parent.value.id != 0
        then Some(detail.value.parent.value.id)
        else None;
      Some(TaskPayload(
        TrimmedOrEmpty(values.name), TrimmedOrEmpty(values.title),
        TrimmedOrEmpty(values.description), TrimmedOrEmpty(values.content),
        kind, Or(values.maxErrors, Num(0)), simulationId,
        if |normalized.value| > 0 then IntroductionJson(normalized.value) else NoIntroduction,
        imagePath, videoPath, filePath, parentId))
  }

  /** The name of the n-th task: "Nhiệm vụ " and the number written in decimal. */
  function AutoName(number: nat): (name: string)
    ensures StartsWith(name, "Nhiệm vụ ") && |name| > |"Nhiệm vụ "|
    ensures forall i :: |"Nhiệm vụ "| <= i < |name| ==> '0' <= name[i] <= '9'
    ensures DecimalValue(name[|"Nhiệm vụ "|..]) == number
  {
    var name := "Nhiệm vụ " + NatToString(number);
    NatToStringRoundTrip(number);
    assert name[|"Nhiệm vụ "|..] == NatToString(number);
    name
  }

  // ---------------------------------------------------------------------------------
  // The form's state.

  const NO_KIND: int := 0

  class TaskFormState {
    const isEditing: bool
    var taskKind: int
    var parentTaskInfo: Option<TaskList.ParentRef>
    var autoNameGenerated: bool
    var name: string
    var sections: seq<Value>
    var changed: bool

    /** The editor always shows at least one section, and each one is a section object. */
    predicate Valid()
      reads this
    {
      |sections| >= 1 && forall s :: s in sections ==> IsSection(s)
    }

    constructor (isEditing: bool)
      ensures Valid()
      ensures this.isEditing == isEditing && taskKind == NO_KIND && parentTaskInfo.None?
      ensures !autoNameGenerated && name == "" && sections == [EmptySection] && !changed
    {
      EmptySectionIsSection();
      this.isEditing := isEditing;
      taskKind := NO_KIND;
      parentTaskInfo := None;
      autoNameGenerated := false;
      name := "";
      sections := [EmptySection];
      changed := false;
    }

    /** The kind effect. A new record opened from a task's "create subtask" button is a
        SUBTASK named after that task, with no automatic name; any other new record is a
        TASK. An edited record takes its kind from the loaded detail. */
    method DetectKind(parentFromState: Option<TaskList.ParentRef>, detail: Option<TaskDetail>)
      modifies this
      ensures !isEditing && parentFromState.Some? ==>
        taskKind == SUBTASK && parentTaskInfo == parentFromState
        && autoNameGenerated && name == parentFromState.value.name
      ensures !isEditing && parentFromState.None? ==>
        taskKind == TASK && parentTaskInfo.None?
        && autoNameGenerated == old(autoNameGenerated) && name == old(name)
      ensures isEditing && detail.Some? && detail.value.kind == SUBTASK && detail.value.parent.Some? ==>
        taskKind == SUBTASK && parentTaskInfo == detail.value.parent
      ensures isEditing && detail.Some? && detail.value.kind == TASK ==>
        taskKind == TASK && parentTaskInfo.None?
      ensures isEditing && !(detail.Some? && (detail.value.kind == TASK || (detail.value.kind == SUBTASK && detail.value.parent.Some?))) ==>
        taskKind == old(taskKind) && parentTaskInfo == old(parentTaskInfo)
      ensures isEditing ==> autoNameGenerated == old(autoNameGenerated) && name == old(name)
      ensures sections == old(sections) && changed == old(changed)
    {
      if !isEditing {
        if parentFromState.Some? {
          taskKind := SUBTASK;
          parentTaskInfo := parentFromState;
          name := parentFromState.value.name;
          autoNameGenerated := true;
        } else {
          taskKind := TASK;
          parentTaskInfo := None;
        }
      } else {
        if detail.Some? && detail.value.kind == SUBTASK && detail.value.parent.Some? {
          taskKind := SUBTASK;
          parentTaskInfo := detail.value.parent;
        } else if detail.Some? && detail.value.kind == TASK {
          taskKind := TASK;
          parentTaskInfo := None;
        }
      }
    }

    /** `generateAutoName`, given the simulation's task list (`None` when the response holds
        none). Only a new TASK that has no name yet is named, after the tasks it follows. */
    method GenerateAutoName(tasks: Option<seq<TaskList.TaskRow>>)
      modifies this
      ensures isEditing || old(autoNameGenerated) || old(taskKind) != TASK || tasks.None? ==>
        name == old(name) && autoNameGenerated == old(autoNameGenerated)
      ensures !isEditing && !old(autoNameGenerated) && old(taskKind) == TASK && tasks.Some? ==>
        name == AutoName(|TaskList.Tasks(tasks.value)| + 1) && autoNameGenerated
      ensures taskKind == old(taskKind) && parentTaskInfo == old(parentTaskInfo)
      ensures sections == old(sections) && changed == old(changed)
    {
      if isEditing || autoNameGenerated || taskKind != TASK {
        return;
      }
      if tasks.Some? {
        var taskCount := |TaskList.Tasks(tasks.value)|;
        name := AutoName(taskCount + 1);
        autoNameGenerated := true;
      }
    }

    /** The load effect for a non-empty detail: the name field shows the stored name, the
        sections come from the stored introduction, and no name is generated any more. */
    method LoadDetail(detail: TaskDetail, parsedIntroduction: Option<Value>)
      requires Valid()
      modifies this
      ensures Valid()
      ensures name == detail.name
      ensures sections == ParseIntroduction(detail.introduction, parsedIntroduction)
      ensures autoNameGenerated
      ensures taskKind == old(taskKind) && parentTaskInfo == old(parentTaskInfo) && changed == old(changed)
    {
      name := detail.name;
      autoNameGenerated := true;
      sections := ParseIntroduction(detail.introduction, parsedIntroduction);
    }

    /** `addIntroductionSection`: exactly one empty section more, at the end. */
    method AddSection()
      requires Valid()
      modifies this
      ensures Valid()
      ensures sections == old(sections) + [EmptySection] && changed
      ensures taskKind == old(taskKind) && parentTaskInfo == old(parentTaskInfo)
      ensures name == old(name) && autoNameGenerated == old(autoNameGenerated)
    {
      EmptySectionIsSection();
      sections := sections + [EmptySection];
      changed := true;
    }

    /** `removeIntroductionSection(index)`: only that section goes, the rest keep their order,
        and removing the last one leaves a single empty section. */
    method RemoveSection(index: int)
      requires Valid()
      modifies this
      ensures Valid()
      ensures |WithoutIndex(old(sections), index)| > 0 ==> sections == WithoutIndex(old(sections), index)
      ensures |WithoutIndex(old(sections), index)| == 0 ==> sections == [EmptySection]
      ensures changed
      ensures taskKind == old(taskKind) && parentTaskInfo == old(parentTaskInfo)
      ensures name == old(name) && autoNameGenerated == old(autoNameGenerated)
    {
      EmptySectionIsSection();
      var newSections := WithoutIndex(sections, index);
      if |newSections| > 0 {
        assert forall s :: s in newSections ==> s in sections;
        sections := newSections;
      } else {
        sections := [EmptySection];
      }
      changed := true;
    }

    /** `updateIntroductionSection(index, field, value)`: only that field of that section
        changes. */
    method UpdateSection(index: int, field: string, value: string)
      requires Valid()
      requires 0 <= index < |sections|
      modifies this
      ensures Valid()
      ensures |sections| == |old(sections)|
      ensures forall i :: 0 <= i < |sections| && i != index ==> sections[i] == old(sections)[i]
      ensures Get(sections[index], field) == Str(value)
      ensures forall k :: k != field ==> Get(sections[index], k) == Get(old(sections)[index], k)
      ensures changed
      ensures taskKind == old(taskKind) && parentTaskInfo == old(parentTaskInfo)
      ensures name == old(name) && autoNameGenerated == old(autoNameGenerated)
    {
      var updated := Assign(sections[index], field, Str(value));
      assert IsSection(updated) by {
        assert sections[index] in sections;
      }
      sections := sections[index := updated];
      changed := true;
    }
  }

  // ---------------------------------------------------------------------------------
  // The preview's formatter.

  /** What the preview draws for one line. */
  datatype Block = Bullet(text: string) | Paragraph(text: string) | Nothing

  /** A line whose trimmed form starts with '•' is a bullet with the marker and the space
      around the rest removed; any other non-blank line is a paragraph of its trimmed text. */
  function FormatLine(line: string): (b: Block)
    ensures b.Nothing? <==> AllSpace(line)
    ensures b.Paragraph? ==> b.text == Trim(line) && b.text != "" && b.text[0] != '•'
    ensures b.Bullet? <==> StartsWith(Trim(line), "•")
    ensures b.Bullet? ==> StartsWith(Trim(line), "•") && b.text == Trim(Trim(line)[1..])
    ensures !b.Nothing? ==> b.text == [] || (!IsSpace(b.text[0]) && !IsSpace(b.text[|b.text| - 1]))
  {
    var trimmed := Trim(line);
    TrimEmptyIffBlank(line);
    TrimShape(line);
    TrimShape(if trimmed != "" then trimmed[1..] else "");
    if StartsWith(trimmed, "•") then Bullet(Trim(trimmed[1..]))
    else if trimmed != "" then Paragraph(trimmed)
    else Nothing
  }

  /** `formatContent(content)`: `None` for empty content, otherwise one block per line. */
  function FormatContent(content: string): (blocks: Option<seq<Block>>)
    ensures content == "" <==> blocks.None?
    ensures blocks.Some? ==> |blocks.value| == |Split(content, '\n')|
    ensures blocks.Some? ==> forall i :: 0 <= i < |blocks.value| ==> blocks.value[i] == FormatLine(Split(content, '\n')[i])
  {
    if content == "" then None
    else
      var lines := Split(content, '\n');
      Some(seq(|lines|, i requires 0 <= i < |lines| => FormatLine(lines[i])))
  }
}
