/**
 * Joining, filtering and shaping task rows for the calendar
 * (DataTransformation.js): colour names to hex codes, the join of each task
 * against the lookup tables, the removal of inactive tasks, and the
 * conversion of what is left into calendar events.
 *
 * JavaScript's Date is not modelled: a Clock supplies the parse of a cell
 * value into local calendar fields and the serialisation toISOString.
 */
module DataTransformation {
  import opened Wrappers
  import opened Text
  import opened Records
  import opened Seqs

  /** A task type ("calendar event") that marks a row as a full calendar event rather than a task. */
  const CalendarEventType := "ארוע לוח שנה"

  const DefaultBackgroundColor := "#3498db"
  const DefaultTextColor := "#FFFFFF"

  /** The colour names mapColorNameToHex recognises, with their codes. */
  const ColorHex: map<string, string> := map[
    "red" := "#FF0000", "blue" := "#0000FF", "green" := "#008000",
    "black" := "#000000", "white" := "#FFFFFF", "orange" := "#FFA500",
    "purple" := "#800080", "yellow" := "#FFFF00", "grey" := "#808080", "gray" := "#808080"]

  /**
   * mapColorNameToHex: the trimmed, lower-cased name looked up among the
   * recognised colours; anything else, the empty name included, gives the
   * default back unchanged.
   */
  function MapColorNameToHex(colorName: string, defaultHex: string): (hex: string)
    ensures colorName == "" ==> hex == defaultHex
    ensures Lower(Trim(colorName)) in ColorHex ==> hex == ColorHex[Lower(Trim(colorName))]
    ensures Lower(Trim(colorName)) !in ColorHex ==> hex == defaultHex
  {
    if colorName == "" then defaultHex
    else match Lower(Trim(colorName))
      case "red" => "#FF0000"
      case "blue" => "#0000FF"
      case "green" => "#008000"
      case "black" => "#000000"
      case "white" => "#FFFFFF"
      case "orange" => "#FFA500"
      case "purple" => "#800080"
      case "yellow" => "#FFFF00"
      case "grey" => "#808080"
      case "gray" => "#808080"
      case _ => defaultHex
  }

  /**
   * A recognised colour is recognised in any mix of upper and lower case and
   * with any whitespace around it; grey and gray are the same colour.
   */
  lemma ColorNameInsensitive(before: string, name: string, after: string, defaultHex: string)
    requires Lower(name) in ColorHex
    requires AllWhitespace(before) && AllWhitespace(after)
    ensures MapColorNameToHex(before + name + after, defaultHex) == ColorHex[Lower(name)]
    ensures ColorHex["grey"] == ColorHex["gray"]
  {
    PaddedColorKey(before, name, after);
  }

  /** The key mapColorNameToHex looks up for a padded colour name is the lower-cased name. */
  lemma PaddedColorKey(before: string, name: string, after: string)
    requires Lower(name) in ColorHex
    requires AllWhitespace(before) && AllWhitespace(after)
    ensures before + name + after != ""
    ensures Lower(Trim(before + name + after)) == Lower(name)
  {
    ColorKeyEnds(Lower(name));
    LetterNotWhitespace(name[0]);
    LetterNotWhitespace(name[|name| - 1]);
    TrimPadded(before, name, after);
    assert |before + name + after| >= |name|;
  }

  /** Every recognised colour name is a non-empty word that begins and ends with a lower-case ASCII letter. */
  lemma ColorKeyEnds(key: string)
    requires key in ColorHex
    ensures key != "" && 'a' <= key[0] <= 'z' && 'a' <= key[|key| - 1] <= 'z'
  {
    assert key in {"red", "blue", "green", "black", "white", "orange", "purple", "yellow", "grey", "gray"};
  }

  /** A character that lower-cases to an ASCII letter is not whitespace. */
  lemma LetterNotWhitespace(c: char)
    requires 'a' <= LowerChar(c) <= 'z'
    ensures !IsWhitespace(c)
  {
  }

  /** The six lookup tables a task is joined against. */
  datatype SupportingData = SupportingData(
    projects: LookupMap,
    employees: LookupMap,
    taskStatuses: LookupMap,
    taskTypes: LookupMap,
    locations: LookupMap,
    projectStatuses: LookupMap)

  /**
   * One join: the row the record's foreign key names, looked up by the key's
   * trimmed text, or the empty object when the key is empty or unknown.
   */
  function Resolve(record: Record, foreignKey: string, table: LookupMap): (joined: Record)
    ensures joined == map[] || joined in table.Values
    ensures Field(record, foreignKey) != "" && Trim(Field(record, foreignKey)) in table ==>
      joined == table[Trim(Field(record, foreignKey))]
    ensures Field(record, foreignKey) == "" || Trim(Field(record, foreignKey)) !in table ==> joined == map[]
  {
    var key := Field(record, foreignKey);
    if key != "" && Trim(key) in table then table[Trim(key)] else map[]
  }

  /**
   * An employee's first and last name joined by a space, trimmed: a first
   * name that does not start with whitespace and a last name that does not
   * end with it give exactly "fName sName".
   */
  function FullName(employee: Record): (name: string)
    ensures |name| <= |Field(employee, "fName")| + 1 + |Field(employee, "sName")|
    ensures name == "" || (!IsWhitespace(name[0]) && !IsWhitespace(name[|name| - 1]))
    ensures var first, last := Field(employee, "fName"), Field(employee, "sName");
      first != "" && last != "" && !IsWhitespace(first[0]) && !IsWhitespace(last[|last| - 1]) ==>
        name == first + " " + last
  {
    var spaced := Field(employee, "fName") + " " + Field(employee, "sName");
    TrimSpec(spaced);
    TrimUnpadded(spaced);
    Trim(spaced)
  }

  /** The rows a task joins to; the empty object stands for a join that found nothing. */
  datatype Joins = Joins(
    project: Record,
    projectStatus: Record,
    taskType: Record,
    taskStatus: Record,
    location: Record,
    taskManager: Record,
    projectManager: Record)

  /** The seven joins of one task: three through a task's own keys, three through its project's, one through the type. */
  function ResolveJoins(task: Record, data: SupportingData): (j: Joins)
    ensures j.project == map[] || j.project in data.projects.Values
    ensures j.projectStatus == map[] || j.projectStatus in data.projectStatuses.Values
    ensures j.taskType == map[] || j.taskType in data.taskTypes.Values
    ensures j.taskStatus == map[] || j.taskStatus in data.taskStatuses.Values
    ensures j.location == map[] || j.location in data.locations.Values
    ensures j.taskManager == map[] || j.taskManager in data.employees.Values
    ensures j.projectManager == map[] || j.projectManager in data.employees.Values
  {
    var project := Resolve(task, "Project", data.projects);
    Joins(
      project := project,
      projectStatus := Resolve(project, "ProjectStatus", data.projectStatuses),
      taskType := Resolve(task, "TaskType", data.taskTypes),
      taskStatus := Resolve(task, "TaskStatus", data.taskStatuses),
      location := Resolve(project, "Location", data.locations),
      taskManager := Resolve(task, "TaskManager", data.employees),
      projectManager := Resolve(project, "ProjectManager", data.employees))
  }

  /** The properties enrichment adds to (or overwrites on) a task. */
  const DerivedFields: set<string> := {
    "projectName", "projectStatus", "projectFolder", "taskTypeName", "taskStatusHebrew",
    "locationName", "taskManagerName", "projectManagerName", "backgroundColor", "textColor"}

  /** The values of the derived properties. */
  datatype Derived = Derived(
    projectName: string,
    projectStatus: string,
    projectFolder: string,
    taskTypeName: string,
    taskStatusHebrew: string,
    locationName: string,
    taskManagerName: string,
    projectManagerName: string,
    backgroundColor: string,
    textColor: string)
  {
    /** The derived values as the properties they are stored under. */
    function ToRecord(): (r: Record)
      ensures r.Keys == DerivedFields
      ensures r["projectName"] == projectName && r["projectStatus"] == projectStatus
      ensures r["projectFolder"] == projectFolder && r["taskTypeName"] == taskTypeName
      ensures r["taskStatusHebrew"] == taskStatusHebrew && r["locationName"] == locationName
      ensures r["taskManagerName"] == taskManagerName && r["projectManagerName"] == projectManagerName
      ensures r["backgroundColor"] == backgroundColor && r["textColor"] == textColor
    {
      map[
        "projectName" := projectName,
        "projectStatus" := projectStatus,
        "projectFolder" := projectFolder,
        "taskTypeName" := taskTypeName,
        "taskStatusHebrew" := taskStatusHebrew,
        "locationName" := locationName,
        "taskManagerName" := taskManagerName,
        "projectManagerName" := projectManagerName,
        "backgroundColor" := backgroundColor,
        "textColor" := textColor]
    }
  }

  /**
   * The derived values of a task, read off its joins with '' for what a join
   * lacks. The background is the code of the status row's colour when that
   * names a recognised colour and the default blue exactly otherwise; the
   * text colour likewise from the type row, defaulting to white.
   */
  function Derive(task: Record, joins: Joins): (d: Derived)
    ensures d.backgroundColor == DefaultBackgroundColor || d.backgroundColor in ColorHex.Values
    ensures d.textColor == DefaultTextColor || d.textColor in ColorHex.Values
    ensures var key := Lower(Trim(Field(joins.taskStatus, "color")));
      && (key in ColorHex ==> d.backgroundColor == ColorHex[key])
      && (key !in ColorHex ==> d.backgroundColor == DefaultBackgroundColor)
    ensures var key := Lower(Trim(Field(joins.taskType, "color")));
      && (key in ColorHex ==> d.textColor == ColorHex[key])
      && (key !in ColorHex ==> d.textColor == DefaultTextColor)
  {
    Derived(
      projectName := Field(joins.project, "name"),
      projectStatus := Field(joins.projectStatus, "Status"),
      projectFolder := Field(joins.project, "folder"),
      taskTypeName := Trim(OrElse(Field(joins.taskType, "hebrew"), Field(task, "Task"))),
      taskStatusHebrew := Trim(OrElse(Field(joins.taskStatus, "hebrew"), Field(joins.taskStatus, "TaskStatus"))),
      locationName := Field(joins.location, "name"),
      taskManagerName := FullName(joins.taskManager),
      projectManagerName := FullName(joins.projectManager),
      backgroundColor := MapColorNameToHex(Field(joins.taskStatus, "color"), DefaultBackgroundColor),
      textColor := MapColorNameToHex(Field(joins.taskType, "color"), DefaultTextColor))
  }

  /** `{ ...task }` with the derived properties assigned on top. */
  function EnrichEvent(task: Record, data: SupportingData): (event: Record)
    ensures event.Keys == task.Keys + DerivedFields
  {
    task + Derive(task, ResolveJoins(task, data)).ToRecord()
  }

  /**
   * Enrichment only adds: every task property that is not a derived
   * one is copied unchanged, every derived one is present, and the colours are
   * the defaults unless the status or type names a recognised colour.
   */
  lemma EnrichEventCopiesTask(task: Record, data: SupportingData)
    ensures var event := EnrichEvent(task, data);
      && event.Keys == task.Keys + DerivedFields
      && (forall k :: k in task && k !in DerivedFields ==> event[k] == task[k])
      && (event["backgroundColor"] == DefaultBackgroundColor || event["backgroundColor"] in ColorHex.Values)
      && (event["textColor"] == DefaultTextColor || event["textColor"] in ColorHex.Values)
  {
    EnrichedValues(task, data);
  }

  /** An empty or unknown key joins to the empty object, and so does every join through it. */
  lemma UnresolvedJoins(task: Record, data: SupportingData)
    ensures var j := ResolveJoins(task, data);
      && (Field(task, "Project") == "" || Trim(Field(task, "Project")) !in data.projects ==>
            j.project == map[] && j.projectStatus == map[] && j.location == map[] && j.projectManager == map[])
      && (Field(task, "TaskType") == "" || Trim(Field(task, "TaskType")) !in data.taskTypes ==> j.taskType == map[])
      && (Field(task, "TaskStatus") == "" || Trim(Field(task, "TaskStatus")) !in data.taskStatuses ==> j.taskStatus == map[])
      && (Field(task, "TaskManager") == "" || Trim(Field(task, "TaskManager")) !in data.employees ==> j.taskManager == map[])
  {
  }

  /**
   * A key that is set and known joins to the row stored under its trimmed
   * text; the project's status, location and manager are looked up by the
   * project row's own keys.
   */
  lemma ResolvedJoins(task: Record, data: SupportingData)
    ensures var j := ResolveJoins(task, data);
      && (var k := Field(task, "Project"); k != "" && Trim(k) in data.projects ==> j.project == data.projects[Trim(k)])
      && (var k := Field(j.project, "ProjectStatus");
            k != "" && Trim(k) in data.projectStatuses ==> j.projectStatus == data.projectStatuses[Trim(k)])
      && (var k := Field(j.project, "Location"); k != "" && Trim(k) in data.locations ==> j.location == data.locations[Trim(k)])
      && (var k := Field(j.project, "ProjectManager");
            k != "" && Trim(k) in data.employees ==> j.projectManager == data.employees[Trim(k)])
      && (var k := Field(task, "TaskType"); k != "" && Trim(k) in data.taskTypes ==> j.taskType == data.taskTypes[Trim(k)])
      && (var k := Field(task, "TaskStatus");
            k != "" && Trim(k) in data.taskStatuses ==> j.taskStatus == data.taskStatuses[Trim(k)])
      && (var k := Field(task, "TaskManager"); k != "" && Trim(k) in data.employees ==> j.taskManager == data.employees[Trim(k)])
  {
  }

  /**
   * The derived properties of an enriched task, read off the rows it joined:
   * the project's name and folder, the project status row's Status, the
   * location's name, the type's and the status's Hebrew label when set (else
   * the task's Task text and the status row's TaskStatus), the managers' full
   * names, and the colours of the status and type rows.
   */
  lemma EnrichedFromRows(task: Record, data: SupportingData)
    ensures var j := ResolveJoins(task, data);
      var e := EnrichEvent(task, data);
      && e["projectName"] == Field(j.project, "name") && e["projectFolder"] == Field(j.project, "folder")
      && e["projectStatus"] == Field(j.projectStatus, "Status") && e["locationName"] == Field(j.location, "name")
      && (Field(j.taskType, "hebrew") != "" ==> e["taskTypeName"] == Trim(Field(j.taskType, "hebrew")))
      && (Field(j.taskType, "hebrew") == "" ==> e["taskTypeName"] == Trim(Field(task, "Task")))
      && (Field(j.taskStatus, "hebrew") != "" ==> e["taskStatusHebrew"] == Trim(Field(j.taskStatus, "hebrew")))
      && (Field(j.taskStatus, "hebrew") == "" ==> e["taskStatusHebrew"] == Trim(Field(j.taskStatus, "TaskStatus")))
      && e["taskManagerName"] == FullName(j.taskManager) && e["projectManagerName"] == FullName(j.projectManager)
  {
    EnrichedValues(task, data);
  }

  /** The colours of an enriched task: the recognised colour of the status and type rows, or the defaults exactly when unrecognised. */
  lemma EnrichedColors(task: Record, data: SupportingData)
    ensures var j := ResolveJoins(task, data);
      var e := EnrichEvent(task, data);
      var background, text := Lower(Trim(Field(j.taskStatus, "color"))), Lower(Trim(Field(j.taskType, "color")));
      && (background in ColorHex ==> e["backgroundColor"] == ColorHex[background])
      && (background !in ColorHex ==> e["backgroundColor"] == DefaultBackgroundColor)
      && (text in ColorHex ==> e["textColor"] == ColorHex[text])
      && (text !in ColorHex ==> e["textColor"] == DefaultTextColor)
  {
    EnrichedValues(task, data);
  }

  /** An employee that was not found has the empty name. */
  lemma NoEmployeeNoName()
    ensures FullName(map[]) == ""
  {
    assert "" + " " + "" == " ";
    assert AllWhitespace(" ");
    TrimWhitespace(" ");
  }

  /** Without a project, everything read through the project is empty. */
  lemma UnresolvedProject(task: Record, data: SupportingData)
    requires Field(task, "Project") == "" || Trim(Field(task, "Project")) !in data.projects
    ensures var e := EnrichEvent(task, data);
      && e["projectName"] == "" && e["projectStatus"] == "" && e["projectFolder"] == ""
      && e["locationName"] == "" && e["projectManagerName"] == ""
  {
    UnresolvedJoins(task, data);
    EnrichedValues(task, data);
    NoEmployeeNoName();
  }

  /** Without a task type, the type name is a task's own trimmed Task text and the text colour is white. */
  lemma UnresolvedTaskType(task: Record, data: SupportingData)
    requires Field(task, "TaskType") == "" || Trim(Field(task, "TaskType")) !in data.taskTypes
    ensures var e := EnrichEvent(task, data);
      e["taskTypeName"] == Trim(Field(task, "Task")) && e["textColor"] == DefaultTextColor
  {
    UnresolvedJoins(task, data);
    EnrichedValues(task, data);
  }

  /** Without a task status, the status label is empty and the background is the default blue. */
  lemma UnresolvedTaskStatus(task: Record, data: SupportingData)
    requires Field(task, "TaskStatus") == "" || Trim(Field(task, "TaskStatus")) !in data.taskStatuses
    ensures var e := EnrichEvent(task, data);
      e["taskStatusHebrew"] == "" && e["backgroundColor"] == DefaultBackgroundColor
  {
    UnresolvedJoins(task, data);
    EnrichedValues(task, data);
    TrimWhitespace("");
  }

  /** Without a task manager, its task manager's name is empty. */
  lemma UnresolvedTaskManager(task: Record, data: SupportingData)
    requires Field(task, "TaskManager") == "" || Trim(Field(task, "TaskManager")) !in data.employees
    ensures EnrichEvent(task, data)["taskManagerName"] == ""
  {
    UnresolvedJoins(task, data);
    EnrichedValues(task, data);
    NoEmployeeNoName();
  }

  /** The derived properties of an enriched task hold the derived values. */
  lemma EnrichedValues(task: Record, data: SupportingData)
    ensures var d := Derive(task, ResolveJoins(task, data));
      var e := EnrichEvent(task, data);
      && e["projectName"] == d.projectName && e["projectStatus"] == d.projectStatus
      && e["projectFolder"] == d.projectFolder && e["taskTypeName"] == d.taskTypeName
      && e["taskStatusHebrew"] == d.taskStatusHebrew && e["locationName"] == d.locationName
      && e["taskManagerName"] == d.taskManagerName && e["projectManagerName"] == d.projectManagerName
      && e["backgroundColor"] == d.backgroundColor && e["textColor"] == d.textColor
  {
  }

  const InactiveProjectStatuses: seq<string> :=
    ["מבוטל", "אופציונלי", "טנטטיבי", "נדחה", "canceled", "cancelled", "tentative"]
  const InactiveTaskStatuses: seq<string> := ["מבוטל", "נדחה", "canceled", "cancelled"]

  /** The filter of enrichEventsWithSupportingData: neither the project's nor a task's status marks it inactive. */
  predicate IsActive(event: Record)
    ensures Field(event, "projectStatus") == "" && Field(event, "taskStatusHebrew") == "" ==> IsActive(event)
  {
    && Lower(Trim(Field(event, "projectStatus"))) !in InactiveProjectStatuses
    && Lower(Trim(Field(event, "taskStatusHebrew"))) !in InactiveTaskStatuses
  }

  /** The callback of `tasks.map(task => ...)`. */
  function Enricher(data: SupportingData): Record -> Record {
    task => EnrichEvent(task, data)
  }

  /** `tasks.map(task => ...)`: every task enriched, in task order. */
  function EnrichAll(tasks: seq<Record>, data: SupportingData): (enriched: seq<Record>)
    ensures |enriched| == |tasks|
    ensures forall i :: 0 <= i < |tasks| ==> enriched[i] == EnrichEvent(tasks[i], data)
  {
    Map(Enricher(data), tasks)
  }

  /**
   * enrichEventsWithSupportingData: no tasks or no tables give no events;
   * otherwise every task is enriched and the inactive ones are dropped, so
   * every event returned is active and there are no more events than tasks.
   */
  function EnrichEventsWithSupportingData(tasks: Option<seq<Record>>, data: Option<SupportingData>): (events: seq<Record>)
    ensures tasks.None? || data.None? ==> events == []
    ensures tasks.Some? ==> |events| <= |tasks.value|
    ensures forall i :: 0 <= i < |events| ==>
      && Lower(Trim(Field(events[i], "projectStatus"))) !in InactiveProjectStatuses
      && Lower(Trim(Field(events[i], "taskStatusHebrew"))) !in InactiveTaskStatuses
  {
    if tasks.None? || data.None? then []
    else Filter(IsActive, EnrichAll(tasks.value, data.value))
  }

  /**
   * The events are the enriched tasks in task order with the inactive ones
   * removed: every task whose enrichment is active is among them, as many
   * times as it occurs among the enriched tasks.
   */
  lemma EnrichmentKeepsActiveInOrder(tasks: seq<Record>, data: SupportingData)
    ensures var events := EnrichEventsWithSupportingData(Some(tasks), Some(data));
      && IsSubsequence(events, EnrichAll(tasks, data))
      && (forall i :: 0 <= i < |tasks| && IsActive(EnrichEvent(tasks[i], data)) ==> EnrichEvent(tasks[i], data) in events)
      && forall e :: e in EnrichAll(tasks, data) ==>
           multiset(events)[e] == if IsActive(e) then multiset(EnrichAll(tasks, data))[e] else 0
  {
    FilterMapOrigin(Enricher(data), IsActive, tasks);
    FilterCount(IsActive, EnrichAll(tasks, data));
  }

  /** Each event is the enrichment of some task: the filter invents nothing. */
  lemma EnrichedEventsHaveOrigin(tasks: seq<Record>, data: SupportingData)
    ensures forall e :: e in EnrichEventsWithSupportingData(Some(tasks), Some(data)) ==>
      exists i :: 0 <= i < |tasks| && e == EnrichEvent(tasks[i], data)
  {
    FilterMapOrigin(Enricher(data), IsActive, tasks);
  }

  /** Enrichment treats tasks one at a time: enriching two lists of tasks back to back is enriching each. */
  lemma EnrichmentDistributes(a: seq<Record>, b: seq<Record>, data: SupportingData)
    ensures EnrichEventsWithSupportingData(Some(a + b), Some(data))
      == EnrichEventsWithSupportingData(Some(a), Some(data)) + EnrichEventsWithSupportingData(Some(b), Some(data))
  {
    MapConcat(Enricher(data), a, b);
    FilterConcat(IsActive, EnrichAll(a, data), EnrichAll(b, data));
  }

  /** A parsed date value, in the local-time fields getFullYear() .. getMilliseconds() read. */
  datatype LocalTime = LocalTime(year: int, month: int, day: int, hours: int, minutes: int, seconds: int, millis: int)

  /**
   * JavaScript's Date as the calendar code uses it: `new Date(value)` read
   * back in local time (None when getTime() is NaN), and toISOString of the
   * instant `new Date(year, month, day, hours, minutes)` denotes.
   */
  datatype Clock = Clock(parse: string -> Option<LocalTime>, toISOString: LocalTime -> string)

  /** `iso.split('T')[0]`: everything before the first 'T'. */
  function DatePart(iso: string): (r: string)
    ensures r <= iso && 'T' !in r
    ensures |r| < |iso| ==> iso[|r|] == 'T'
    decreases |iso|
  {
    if iso == [] || iso[0] == 'T' then [] else [iso[0]] + DatePart(iso[1..])
  }

  /**
   * formatDateTimeForCalendar: null for an empty or unparseable date; with a
   * parseable time, the date's day at the time's hour and minute; otherwise
   * the date alone, with no time component.
   */
  function FormatDateTimeForCalendar(clock: Clock, datePart: string, timePart: string): (r: Option<string>)
    ensures r.Some? <==> datePart != "" && clock.parse(datePart).Some?
    ensures r.Some? && (timePart == "" || clock.parse(timePart).None?) ==> 'T' !in r.value
    ensures r.Some? && (timePart == "" || clock.parse(timePart).None?) ==>
      var d := clock.parse(datePart).value;
      r.value == DatePart(clock.toISOString(LocalTime(d.year, d.month, d.day, 0, 0, 0, 0)))
  {
    if datePart == "" then None
    else match clock.parse(datePart)
      case None => None
      case Some(date) =>
        if timePart != "" && clock.parse(timePart).Some? then
          var time := clock.parse(timePart).value;
          Some(clock.toISOString(LocalTime(date.year, date.month, date.day, time.hours, time.minutes, 0, 0)))
        else
          Some(DatePart(clock.toISOString(LocalTime(date.year, date.month, date.day, 0, 0, 0, 0))))
  }

  /**
   * A timed value is the date's calendar day at the time's hour and minute,
   * with seconds and milliseconds zero: two times that agree on hour and
   * minute give the same timestamp, whatever their seconds or their own date.
   */
  lemma TimedStartUsesHourAndMinute(clock: Clock, datePart: string, time1: string, time2: string)
    requires datePart != "" && clock.parse(datePart).Some?
    requires time1 != "" && clock.parse(time1).Some?
    requires time2 != "" && clock.parse(time2).Some?
    requires clock.parse(time1).value.hours == clock.parse(time2).value.hours
    requires clock.parse(time1).value.minutes == clock.parse(time2).value.minutes
    ensures var d, t := clock.parse(datePart).value, clock.parse(time1).value;
      FormatDateTimeForCalendar(clock, datePart, time1)
        == Some(clock.toISOString(LocalTime(d.year, d.month, d.day, t.hours, t.minutes, 0, 0)))
    ensures FormatDateTimeForCalendar(clock, datePart, time1) == FormatDateTimeForCalendar(clock, datePart, time2)
  {
  }

  datatype ExtendedProps = ExtendedProps(
    description: string, status: string, project: string, user: string, folderLink: string, taskTypeName: string)

  /** The event object handed to the calendar widget. */
  datatype CalendarEvent = CalendarEvent(
    id: string,
    title: string,
    start: string,
    end: Option<string>,
    allDay: bool,
    backgroundColor: string,
    textColor: string,
    borderColor: string,
    classNames: seq<string>,
    extendedProps: ExtendedProps)

  const StatusFallback := "לא הוגדר"     // "not defined"
  const ProjectFallback := "ללא פרויקט"   // "no project"
  const UserFallback := "לא שויך"         // "unassigned"

  /** `if (s) titleParts.push(s)`: the one-element list when s is non-empty. */
  function PushIfSet(s: string): (pushed: seq<string>)
    ensures |pushed| <= 1
    ensures pushed == [] <==> s == ""
    ensures forall i :: 0 <= i < |pushed| ==> pushed[i] == s
  {
    if s != "" then [s] else []
  }

  /**
   * The title parts buildEventTitle pushes: the non-empty ones among type,
   * project, location and task manager, in that order. None is empty, and
   * there are none exactly when all four are empty.
   */
  function TitleParts(event: Record): (parts: seq<string>)
    ensures |parts| <= 4
    ensures forall i :: 0 <= i < |parts| ==> parts[i] != ""
    ensures parts == [] <==>
      && Field(event, "taskTypeName") == "" && Field(event, "projectName") == ""
      && Field(event, "locationName") == "" && Field(event, "taskManagerName") == ""
  {
    PushIfSet(Field(event, "taskTypeName")) + (PushIfSet(Field(event, "projectName"))
      + (PushIfSet(Field(event, "locationName")) + PushIfSet(Field(event, "taskManagerName"))))
  }

  /** A title part is pushed when it is set (non-empty). */
  predicate IsSet(s: string) {
    s != ""
  }

  /** The four fields a title is built from, in title order. */
  function TitleFields(event: Record): seq<string> {
    [Field(event, "taskTypeName")] + ([Field(event, "projectName")] + ([Field(event, "locationName")] + [Field(event, "taskManagerName")]))
  }

  /** Pushing the set ones one at a time is filtering: a value in front is pushed when set, then the rest is filtered. */
  lemma PushIsFilter(x: string, rest: seq<string>)
    ensures Filter(IsSet, [x] + rest) == PushIfSet(x) + Filter(IsSet, rest)
  {
    FilterFirst(IsSet, [x] + rest);
    assert ([x] + rest)[1..] == rest;
  }

  /** Filtering four values for the set ones is pushing each of them when set, in order. */
  lemma SetOfFour(a: string, b: string, c: string, d: string)
    ensures Filter(IsSet, [a] + ([b] + ([c] + [d]))) == PushIfSet(a) + (PushIfSet(b) + (PushIfSet(c) + PushIfSet(d)))
  {
    PushIsFilter(a, [b] + ([c] + [d]));
    SetOfThree(b, c, d);
  }

  lemma SetOfThree(b: string, c: string, d: string)
    ensures Filter(IsSet, [b] + ([c] + [d])) == PushIfSet(b) + (PushIfSet(c) + PushIfSet(d))
  {
    PushIsFilter(b, [c] + [d]);
    SetOfTwo(c, d);
  }

  lemma SetOfTwo(c: string, d: string)
    ensures Filter(IsSet, [c] + [d]) == PushIfSet(c) + PushIfSet(d)
  {
    PushIsFilter(c, [d]);
    SetOfOne(d);
  }

  /** A single value is kept exactly when it is set. */
  lemma SetOfOne(d: string)
    ensures Filter(IsSet, [d]) == PushIfSet(d)
  {
    FilterFirst(IsSet, [d]);
    assert [d][1..] == [];
  }

  /** The title parts are exactly the set fields among type, project, location and task manager, in that order. */
  lemma TitlePartsAreSetFields(event: Record)
    ensures TitleParts(event) == Filter(IsSet, TitleFields(event))
  {
    SetOfFour(Field(event, "taskTypeName"), Field(event, "projectName"),
              Field(event, "locationName"), Field(event, "taskManagerName"));
  }

  /**
   * buildEventTitle: the project name for a calendar event, otherwise the set
   * fields among type, project, location and task manager joined by " - "
   * (TitleOfSetFields).
   */
  function BuildEventTitle(event: Record): (title: string)
    ensures Field(event, "taskTypeName") == CalendarEventType ==> title == Field(event, "projectName")
  {
    if Field(event, "taskTypeName") == CalendarEventType then Field(event, "projectName")
    else Join(TitleParts(event), " - ")
  }

  /** A task's title is the set fields among type, project, location and task manager, in that order, joined by " - ". */
  lemma TitleOfSetFields(event: Record)
    requires Field(event, "taskTypeName") != CalendarEventType
    ensures BuildEventTitle(event) == Join(Filter(IsSet, TitleFields(event)), " - ")
  {
    TitlePartsAreSetFields(event);
  }

  /** A task's title is empty exactly when all four parts are empty. */
  lemma TitleEmpty(event: Record)
    requires Field(event, "taskTypeName") != CalendarEventType
    ensures BuildEventTitle(event) == "" <==>
      && Field(event, "taskTypeName") == "" && Field(event, "projectName") == ""
      && Field(event, "locationName") == "" && Field(event, "taskManagerName") == ""
  {
    JoinEmpty(TitleParts(event), " - ");
  }

  /**
   * A task's title has no separator at either end: it starts with the first
   * non-empty part, ends with the last, and is as long as the parts plus one
   * " - " between each pair of neighbours.
   */
  lemma TitleShape(event: Record)
    requires Field(event, "taskTypeName") != CalendarEventType
    requires TitleParts(event) != []
    ensures var parts := TitleParts(event);
      var title := BuildEventTitle(event);
      && |title| == TotalLength(parts) + 3 * (|parts| - 1)
      && |title| >= |parts[0]| && |title| >= |parts[|parts| - 1]|
      && title[..|parts[0]|] == parts[0]
      && title[|title| - |parts[|parts| - 1]|..] == parts[|parts| - 1]
  {
    JoinShape(TitleParts(event), " - ");
  }

  /**
   * No separator is doubled or missing in a task's title: each part is
   * followed by " - " and the next part, at the offset of the parts before it
   * plus one separator each. With the length TitleShape gives, this fixes
   * every character of the title.
   */
  lemma TitleNeighbours(event: Record, i: nat)
    requires Field(event, "taskTypeName") != CalendarEventType
    requires i + 1 < |TitleParts(event)|
    ensures var parts := TitleParts(event);
      var title := BuildEventTitle(event);
      var p := TotalLength(parts[..i]) + 3 * i;
      && p + |parts[i]| + 3 + |parts[i + 1]| <= |title|
      && title[p..p + |parts[i]| + 3 + |parts[i + 1]|] == parts[i] + " - " + parts[i + 1]
  {
    DashNeighbours(TitleParts(event), BuildEventTitle(event), i);
  }

  /** JoinNeighbours for the " - " separator of titles. */
  lemma DashNeighbours(parts: seq<string>, title: string, i: nat)
    requires title == Join(parts, " - ") && i + 1 < |parts|
    ensures var p := TotalLength(parts[..i]) + 3 * i;
      && p + |parts[i]| + 3 + |parts[i + 1]| <= |title|
      && title[p..p + |parts[i]| + 3 + |parts[i + 1]|] == parts[i] + " - " + parts[i + 1]
  {
    JoinNeighbours(parts, " - ", i);
  }

  /** The start of an event: its dateIn combined with its timeIn. */
  function StartOf(clock: Clock, event: Record): (start: Option<string>)
    ensures start.Some? <==> Field(event, "dateIn") != "" && clock.parse(Field(event, "dateIn")).Some?
  {
    FormatDateTimeForCalendar(clock, Field(event, "dateIn"), Field(event, "timeIn"))
  }

  /** `!start` is false: the start exists and is not the empty string. */
  predicate Starts(clock: Clock, event: Record)
    ensures Starts(clock, event) ==> Field(event, "dateIn") != "" && clock.parse(Field(event, "dateIn")).Some?
  {
    var start := StartOf(clock, event);
    start.Some? && start.value != ""
  }

  /**
   * The mapping step of transformEventsForCalendar: null exactly when the
   * event has no start.
   */
  function ToCalendarEvent(clock: Clock, event: Record): (r: Option<CalendarEvent>)
    ensures r.Some? <==> Starts(clock, event)
  {
    var start := StartOf(clock, event);
    var end := FormatDateTimeForCalendar(clock, Field(event, "dateOut"), Field(event, "timeOut"));
    if start.None? || start.value == "" then None
    else
      var isCalendarEvent := Field(event, "taskTypeName") == CalendarEventType;
      Some(CalendarEvent(
        id := Field(event, "ID"),
        title := BuildEventTitle(event),
        start := start.value,
        end := end,
        allDay := isCalendarEvent || Field(event, "timeIn") == "",
        backgroundColor := Field(event, "backgroundColor"),
        textColor := Field(event, "textColor"),
        borderColor := Field(event, "backgroundColor"),
        classNames := if isCalendarEvent then ["calendar-event"] else [],
        extendedProps := ExtendedProps(
          description := Field(event, "TaskNotes"),
          status := OrElse(Field(event, "taskStatusHebrew"), StatusFallback),
          project := OrElse(Field(event, "projectName"), ProjectFallback),
          user := OrElse(Field(event, "projectManagerName"), UserFallback),
          folderLink := Field(event, "projectFolder"),
          taskTypeName := Field(event, "taskTypeName"))))
  }

  /**
   * The shape of a calendar event: its id is a task's ID, its border is its
   * background, it is all-day for calendar events and for events without a
   * time-in, only calendar events carry the "calendar-event" class and have
   * the project name as title (other events have the built title), the status,
   * project and user labels fall back to the fixed texts when empty, and the
   * text colour, notes, folder link and type name are copied.
   */
  lemma CalendarEventShape(clock: Clock, event: Record)
    requires Starts(clock, event)
    ensures var c := ToCalendarEvent(clock, event).value;
      var calendarType := Field(event, "taskTypeName") == CalendarEventType;
      && c.id == Field(event, "ID")
      && c.start == StartOf(clock, event).value
      && c.end == FormatDateTimeForCalendar(clock, Field(event, "dateOut"), Field(event, "timeOut"))
      && c.borderColor == c.backgroundColor == Field(event, "backgroundColor")
      && (c.allDay <==> calendarType || Field(event, "timeIn") == "")
      && (c.classNames == ["calendar-event"] <==> calendarType)
      && (!calendarType ==> c.classNames == [])
      && (calendarType ==> c.title == Field(event, "projectName"))
      && c.extendedProps.status != "" && c.extendedProps.project != "" && c.extendedProps.user != ""
      && (Field(event, "taskStatusHebrew") != "" ==> c.extendedProps.status == Field(event, "taskStatusHebrew"))
      && (Field(event, "projectName") != "" ==> c.extendedProps.project == Field(event, "projectName"))
      && (Field(event, "projectManagerName") != "" ==> c.extendedProps.user == Field(event, "projectManagerName"))
      && (Field(event, "taskStatusHebrew") == "" ==> c.extendedProps.status == StatusFallback)
      && (Field(event, "projectName") == "" ==> c.extendedProps.project == ProjectFallback)
      && (Field(event, "projectManagerName") == "" ==> c.extendedProps.user == UserFallback)
      && c.textColor == Field(event, "textColor")
      && (!calendarType ==> c.title == BuildEventTitle(event))
      && c.extendedProps.description == Field(event, "TaskNotes")
      && c.extendedProps.folderLink == Field(event, "projectFolder")
      && c.extendedProps.taskTypeName == Field(event, "taskTypeName")
  {
  }

  /** The callback of `events.map(event => ...)`. */
  function Converter(clock: Clock): Record -> Option<CalendarEvent> {
    event => ToCalendarEvent(clock, event)
  }

  /** The events whose start is neither null nor empty. */
  function HasStart(clock: Clock): Record -> bool {
    event => Starts(clock, event)
  }

  /** transformEventsForCalendar: map every event, then drop the nulls. */
  function TransformEventsForCalendar(clock: Clock, events: Option<seq<Record>>): (r: seq<CalendarEvent>)
    ensures events.None? ==> r == []
    ensures events.Some? ==> |r| <= |events.value|
  {
    if events.None? then []
    else Somes(Map(Converter(clock), events.value))
  }

  /** The events that have a start, in their original order. */
  function Dated(clock: Clock, events: seq<Record>): (dated: seq<Record>)
    ensures |dated| <= |events|
    ensures forall i :: 0 <= i < |dated| ==> Starts(clock, dated[i])
    ensures forall e :: e in events ==> multiset(dated)[e] == if Starts(clock, e) then multiset(events)[e] else 0
  {
    FilterCount(HasStart(clock), events);
    Filter(HasStart(clock), events)
  }

  /**
   * The calendar receives exactly the events that have a start, in their
   * original order: the i-th calendar event is built from the i-th dated
   * event, so an event whose start is null (no parseable dateIn) or empty
   * contributes nothing.
   */
  lemma TransformKeepsDatedEvents(clock: Clock, events: seq<Record>)
    ensures var dated := Dated(clock, events);
      var r := TransformEventsForCalendar(clock, Some(events));
      && |r| == |dated|
      && forall i :: 0 <= i < |r| ==> ToCalendarEvent(clock, dated[i]) == Some(r[i])
  {
    SomesOfMap(Converter(clock), HasStart(clock), events);
  }
}
