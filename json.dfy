/**
 * `format_json_compact` (src/pysleep/hypnogram_report.py): the report
 * dictionary rendered as indented JSON whose arrays of stage rows stay on
 * one line each. Python's `json.dumps` with its default separators is
 * `Dumps`; how it escapes the characters of a string is the parameter
 * `esc`.
 */
module CompactJson {
  import opened Wrappers
  import opened Text

  /** A JSON value as the report holds it (floats are not modelled). */
  datatype Json =
    | JNull
    | JBool(b: bool)
    | JInt(i: int)
    | JStr(s: string)
    | JArr(items: seq<Json>)
    | JObj(fields: seq<Field>)

  /** One key-value pair of a dictionary, in insertion order. */
  datatype Field = Field(key: string, value: Json)

  /** A string literal with its (already escaped) body. */
  function Quote(body: string): string
  {
    "\"" + body + "\""
  }

  /** `json.dumps(v)` with the default separators `", "` and `": "`. */
  function Dumps(v: Json, esc: string -> string): string
    decreases v, 1
  {
    match v
    case JNull => "null"
    case JBool(b) => if b then "true" else "false"
    case JInt(i) => IntToString(i)
    case JStr(s) => Quote(esc(s))
    case JArr(items) => "[" + DumpsItems(items, esc, |items|) + "]"
    case JObj(fields) => "{" + DumpsFields(fields, esc, |fields|) + "}"
  }

  /** The first `n` items of a list, separated by `", "`. */
  function DumpsItems(items: seq<Json>, esc: string -> string, n: nat): string
    requires n <= |items|
    decreases items, 0, n
  {
    if n == 0 then ""
    else if n == 1 then Dumps(items[0], esc)
    else DumpsItems(items, esc, n - 1) + ", " + Dumps(items[n - 1], esc)
  }

  /** One dictionary entry: `"key": value`. */
  function DumpsEntry(f: Field, esc: string -> string): string
    decreases f, 0
  {
    Quote(esc(f.key)) + ": " + Dumps(f.value, esc)
  }

  /** The first `n` entries of a dictionary, separated by `", "`. */
  function DumpsFields(fields: seq<Field>, esc: string -> string, n: nat): string
    requires n <= |fields|
    decreases fields, 0, n
  {
    if n == 0 then ""
    else if n == 1 then DumpsEntry(fields[0], esc)
    else DumpsFields(fields, esc, n - 1) + ", " + DumpsEntry(fields[n - 1], esc)
  }

  /*
   * Whitespace outside string literals. `Min(s)` drops the spaces and
   * line breaks of `s` that lie outside string literals, reading a
   * backslash inside a literal as escaping the character after it; two
   * texts with the same `Min` are the same JSON document.
   */

  function Min(s: string): string
    decreases |s|
  {
    if s == [] then ""
    else if s[0] == ' ' || s[0] == '\n' then Min(s[1..])
    else if s[0] == '"' then "\"" + MinIn(s[1..])
    else [s[0]] + Min(s[1..])
  }

  function MinIn(s: string): string
    decreases |s|
  {
    if s == [] then ""
    else if s[0] == '\\' then (if |s| == 1 then s else s[..2] + MinIn(s[2..]))
    else if s[0] == '"' then "\"" + Min(s[1..])
    else [s[0]] + MinIn(s[1..])
  }

  /**
   * The body of a string literal as `json.dumps` writes it: every quote
   * and backslash is escaped and no line break is left raw.
   */
  predicate Escaped(body: string)
    decreases |body|
  {
    if body == [] then true
    else if body[0] == '\\' then |body| >= 2 && body[1] != '\n' && Escaped(body[2..])
    else body[0] != '"' && body[0] != '\n' && Escaped(body[1..])
  }

  /** What the escaping of strings guarantees. */
  ghost predicate EscapeSound(esc: string -> string)
  {
    forall s :: Escaped(esc(s))
  }

  /** Read from outside a string literal, `s` ends outside one. */
  predicate Outside(s: string)
    decreases |s|
  {
    if s == [] then true
    else if s[0] == '"' then InsideEnds(s[1..])
    else Outside(s[1..])
  }

  /** Read from inside a string literal, `s` closes it and ends outside one. */
  predicate InsideEnds(s: string)
    decreases |s|
  {
    if s == [] then false
    else if s[0] == '\\' then |s| >= 2 && InsideEnds(s[2..])
    else if s[0] == '"' then Outside(s[1..])
    else InsideEnds(s[1..])
  }

  /** `Min` distributes over a text that ends outside string literals. */
  lemma {:induction false} MinAppend(a: string, b: string)
    requires Outside(a)
    ensures Min(a + b) == Min(a) + Min(b)
    decreases |a|
  {
    if a != [] {
      assert (a + b)[0] == a[0];
      assert (a + b)[1..] == a[1..] + b;
      if a[0] == '"' {
        MinInAppend(a[1..], b);
      } else {
        MinAppend(a[1..], b);
      }
     } else {
      assert a + b == b;
    }
  }

  lemma {:induction false} MinInAppend(a: string, b: string)
    requires InsideEnds(a)
    ensures MinIn(a + b) == MinIn(a) + Min(b)
    decreases |a|
  {
    assert (a + b)[0] == a[0];
    if a[0] == '\\' {
      assert (a + b)[..2] == a[..2];
      assert (a + b)[2..] == a[2..] + b;
      MinInAppend(a[2..], b);
    } else {
      assert (a + b)[1..] == a[1..] + b;
      if a[0] == '"' {
        MinAppend(a[1..], b);
      } else {
        MinInAppend(a[1..], b);
      }
    }
  }

  lemma {:induction false} OutsideConcat(a: string, b: string)
    requires Outside(a) && Outside(b)
    ensures Outside(a + b)
    decreases |a|
  {
    if a != [] {
      assert (a + b)[0] == a[0];
      assert (a + b)[1..] == a[1..] + b;
      if a[0] == '"' {
        InsideEndsConcat(a[1..], b);
      } else {
        OutsideConcat(a[1..], b);
      }
     } else {
      assert a + b == b;
    }
  }

  lemma {:induction false} InsideEndsConcat(a: string, b: string)
    requires InsideEnds(a) && Outside(b)
    ensures InsideEnds(a + b)
    decreases |a|
  {
    assert (a + b)[0] == a[0];
    if a[0] == '\\' {
      assert (a + b)[2..] == a[2..] + b;
      InsideEndsConcat(a[2..], b);
    } else {
      assert (a + b)[1..] == a[1..] + b;
      if a[0] == '"' {
        OutsideConcat(a[1..], b);
      } else {
        InsideEndsConcat(a[1..], b);
      }
    }
  }

  /** Text without quote characters ends outside. */
  lemma {:induction false} PlainOutside(a: string)
    requires '"' !in a
    ensures Outside(a)
    decreases |a|
  {
    if a != [] {
      PlainOutside(a[1..]);
    }
  }

  lemma {:induction false} EscapedInsideEnds(body: string)
    requires Escaped(body)
    ensures InsideEnds(body + "\"") && MinIn(body + "\"") == body + "\""
    decreases |body|
  {
    var s := body + "\"";
    if body == [] {
      assert s == "\"";
    } else if body[0] == '\\' {
      var rest := body[2..];
      assert s[0] == '\\' && |s| >= 2 && s[2..] == rest + "\"";
      assert InsideEnds(rest + "\"") && MinIn(rest + "\"") == rest + "\"" by {
        EscapedInsideEnds(rest);
      }
      assert MinIn(s) == s[..2] + MinIn(s[2..]);
      assert s[..2] == body[..2] && body == body[..2] + rest;
    } else {
      var rest := body[1..];
      assert s[0] == body[0] && s[0] != '"' && s[1..] == rest + "\"";
      assert InsideEnds(rest + "\"") && MinIn(rest + "\"") == rest + "\"" by {
        EscapedInsideEnds(rest);
      }
      assert MinIn(s) == [body[0]] + MinIn(s[1..]);
      assert body == [body[0]] + rest;
    }
  }

  /** A well-escaped string literal ends outside, and `Min` keeps it whole. */
  lemma QuoteOutside(body: string)
    requires Escaped(body)
    ensures Outside(Quote(body)) && Min(Quote(body)) == Quote(body)
  {
    EscapedInsideEnds(body);
    assert Quote(body)[1..] == body + "\"";
  }

  /*
   * The layout of `format_value`.
   */

  /** Two spaces per indentation level. */
  function Spaces(indent: nat): string
  {
    if indent == 0 then "" else Spaces(indent - 1) + "  "
  }

  /** The comma after every entry but the last. */
  function Comma(last: bool): string
  {
    if last then "" else ","
  }

  /** `d.get(key, default)` on the fields of a dictionary. */
  function Get(fields: seq<Field>, key: string, default: Json): Json
  {
    if fields == [] then default
    else if fields[0].key == key then fields[0].value
    else Get(fields[1..], key, default)
  }

  /** What `for stage in stages` walks through: the items of a list, the characters of a string, the keys of a dictionary. */
  function Iterated(v: Json): seq<Json>
  {
    match v
    case JArr(items) => items
    case JStr(s) => seq(|s|, k requires 0 <= k < |s| => JStr([s[k]]))
    case JObj(fields) => seq(|fields|, k requires 0 <= k < |fields| => JStr(fields[k].key))
    case _ => []
  }

  /** Values `for ... in` and `len` accept. */
  predicate Iterable(v: Json)
  {
    v.JArr? || v.JStr? || v.JObj?
  }

  /** The first `n` entries of a list, one per line, each with its comma. */
  function ElementLines(items: seq<Json>, prefix: string, esc: string -> string, n: nat): (ls: seq<string>)
    requires n <= |items|
    ensures |ls| == n
  {
    if n == 0 then []
    else ElementLines(items, prefix, esc, n - 1) + [prefix + Dumps(items[n - 1], esc) + Comma(n == |items|)]
  }

  /** An hour group the layout can read: a dictionary whose "stages" entry, if any, can be walked. */
  predicate HourGroupReadable(g: Json)
  {
    g.JObj? && Iterable(Get(g.fields, "stages", JArr([])))
  }

  /** The stage rows of an hour group. */
  function GroupStages(g: Json): seq<Json>
    requires HourGroupReadable(g)
  {
    Iterated(Get(g.fields, "stages", JArr([])))
  }

  /** The lines of one hour group. */
  function GroupLines(g: Json, spaces: string, esc: string -> string, last: bool): seq<string>
    requires HourGroupReadable(g)
  {
    var stages := GroupStages(g);
    GroupHead(g, spaces, esc) + ElementLines(stages, spaces + "        ", esc, |stages|) + [spaces + "      ]", spaces + "    }" + Comma(last)]
  }

  /** The opening lines of an hour group, up to its list of rows. */
  function GroupHead(g: Json, spaces: string, esc: string -> string): seq<string>
    requires g.JObj?
  {
    [ spaces + "    {",
      spaces + "      \"hour_range\": " + Dumps(Get(g.fields, "hour_range", JStr("")), esc) + ",",
      spaces + "      \"stages\": ["]
  }

  /** The lines of the first `n` hour groups. */
  function HourGroupsLines(groups: seq<Json>, spaces: string, esc: string -> string, n: nat): seq<string>
    requires n <= |groups|
    requires forall k :: 0 <= k < |groups| ==> HourGroupReadable(groups[k])
  {
    if n == 0 then []
    else HourGroupsLines(groups, spaces, esc, n - 1) + GroupLines(groups[n - 1], spaces, esc, n == |groups|)
  }

  /** The dictionary entry that gets the stage-row layout. */
  predicate IsStagesEntry(f: Field)
  {
    f.key == "stages" && f.value.JArr? && f.value.items != []
  }

  /** The dictionary entry that gets the hour-group layout. */
  predicate IsHoursEntry(f: Field)
  {
    !IsStagesEntry(f) && f.key == "sleep_stages_by_hour" && f.value.JArr?
  }

  /**
   * A value `format_value` renders without raising: the items of every
   * "sleep_stages_by_hour" list it lays out are readable hour groups.
   */
  predicate Formattable(v: Json)
    decreases v, 1
  {
    match v
    case JObj(fields) => forall k :: 0 <= k < |fields| ==> FieldFormattable(fields[k])
    case _ => true
  }

  predicate FieldFormattable(f: Field)
    decreases f, 0
  {
    if IsStagesEntry(f) then true
    else if IsHoursEntry(f) then forall k :: 0 <= k < |f.value.items| ==> HourGroupReadable(f.value.items[k])
    else Formattable(f.value)
  }

  /** `format_value(v, indent)`. */
  function Format(v: Json, indent: nat, esc: string -> string): string
    requires Formattable(v)
    decreases v, 2
  {
    match v
    case JObj(fields) =>
      if fields == [] then "{}"
      else Join(["{"] + FieldsLines(fields, indent, esc, |fields|) + [Spaces(indent) + "}"], "\n")
    case _ => Dumps(v, esc)
  }

  /** The lines of the first `n` entries of a dictionary. */
  function FieldsLines(fields: seq<Field>, indent: nat, esc: string -> string, n: nat): seq<string>
    requires n <= |fields|
    requires forall k :: 0 <= k < |fields| ==> FieldFormattable(fields[k])
    decreases fields, 1, n
  {
    if n == 0 then []
    else FieldsLines(fields, indent, esc, n - 1) + EntryLines(fields[n - 1], indent, esc, n == |fields|)
  }

  /** The lines of one dictionary entry. */
  function EntryLines(f: Field, indent: nat, esc: string -> string, last: bool): seq<string>
    requires FieldFormattable(f)
    decreases f, 0
  {
    var spaces := Spaces(indent);
    if IsStagesEntry(f) then
      [spaces + "  \"" + f.key + "\": ["]
      + ElementLines(f.value.items, spaces + "    ", esc, |f.value.items|)
      + [spaces + "  ]" + Comma(last)]
    else if IsHoursEntry(f) then
      [spaces + "  \"" + f.key + "\": ["]
      + HourGroupsLines(f.value.items, spaces, esc, |f.value.items|)
      + [spaces + "  ]" + Comma(last)]
    else
      var formatted := if f.value.JObj? then Format(f.value, indent + 1, esc) else Dumps(f.value, esc);
      [spaces + "  \"" + f.key + "\": " + formatted + Comma(last)]
  }

  /**
   * `format_value`: a dictionary becomes a list of lines joined by line
   * breaks, with the entries "stages" and "sleep_stages_by_hour" laid out
   * row by row; anything else is `json.dumps`.
   */
  method FormatValue(v: Json, indent: nat, esc: string -> string) returns (text: string)
    requires Formattable(v)
    ensures text == Format(v, indent, esc)
    decreases v, 1
  {
    var spaces := Spaces(indent);
    if !v.JObj? {
      return Dumps(v, esc);
    }
    if v.fields == [] {
      return "{}";
    }
    var lines := ["{"];
    var items := v.fields;
    for i := 0 to |items|
      invariant lines == ["{"] + FieldsLines(items, indent, esc, i)
    {
      assert items[i] in items;
      var block := FormatEntry(items[i], indent, esc, i == |items| - 1);
      FieldsLinesStep(items, indent, esc, i);
      lines := lines + block;
    }
    lines := lines + [spaces + "}"];
    return Join(lines, "\n");
  }

  /** The lines `format_value` writes for one entry of a dictionary. */
  method FormatEntry(f: Field, indent: nat, esc: string -> string, last: bool) returns (block: seq<string>)
    requires FieldFormattable(f)
    ensures block == EntryLines(f, indent, esc, last)
    decreases f, 0
  {
    var spaces := Spaces(indent);
    var key, value := f.key, f.value;
    var comma := if last then "" else ",";
    if key == "stages" && value.JArr? && value.items != [] {
      var rows := WriteStageRows(value.items, spaces + "    ", esc);
      block := [spaces + "  \"" + key + "\": ["] + rows + [spaces + "  ]" + comma];
    } else if key == "sleep_stages_by_hour" && value.JArr? {
      var groups := WriteHourGroups(value.items, spaces, esc);
      block := [spaces + "  \"" + key + "\": ["] + groups + [spaces + "  ]" + comma];
    } else {
      var formatted;
      if value.JObj? || value.JArr? {
        formatted := FormatValue(value, indent + 1, esc);
      } else {
        formatted := Dumps(value, esc);
      }
      block := [spaces + "  \"" + key + "\": " + formatted + comma];
    }
    EntryLinesCases(f, indent, esc, last);
  }

  lemma FieldsLinesStep(fields: seq<Field>, indent: nat, esc: string -> string, i: nat)
    requires i < |fields|
    requires forall k :: 0 <= k < |fields| ==> FieldFormattable(fields[k])
    ensures ["{"] + FieldsLines(fields, indent, esc, i + 1)
      == (["{"] + FieldsLines(fields, indent, esc, i)) + EntryLines(fields[i], indent, esc, i + 1 == |fields|)
  {
  }

  /** The three layouts of an entry, spelled out. */
  lemma EntryLinesCases(f: Field, indent: nat, esc: string -> string, last: bool)
    requires FieldFormattable(f)
    ensures var spaces := Spaces(indent);
      && (IsStagesEntry(f) ==>
            EntryLines(f, indent, esc, last) == [spaces + "  \"" + f.key + "\": ["] + ElementLines(f.value.items, spaces + "    ", esc, |f.value.items|) + [spaces + "  ]" + Comma(last)])
      && (IsHoursEntry(f) ==>
            EntryLines(f, indent, esc, last) == [spaces + "  \"" + f.key + "\": ["] + HourGroupsLines(f.value.items, spaces, esc, |f.value.items|) + [spaces + "  ]" + Comma(last)])
      && (!IsStagesEntry(f) && !IsHoursEntry(f) ==>
            EntryLines(f, indent, esc, last) == [spaces + "  \"" + f.key + "\": " + Format(f.value, indent + 1, esc) + Comma(last)])
  {
  }

  /** The rows of a "stages" list, one `json.dumps` per line. */
  method WriteStageRows(stages: seq<Json>, prefix: string, esc: string -> string) returns (rows: seq<string>)
    ensures rows == ElementLines(stages, prefix, esc, |stages|)
  {
    rows := [];
    for j := 0 to |stages|
      invariant rows == ElementLines(stages, prefix, esc, j)
    {
      var stage := stages[j];
      var comma := if j < |stages| - 1 then "," else "";
      if stage.JArr? && |stage.items| == 3 {
        // an [index, stage, duration] row
        var formatted := Dumps(stage, esc);
        rows := rows + [prefix + formatted + comma];
      } else {
        rows := rows + [prefix + Dumps(stage, esc) + comma];
      }
    }
  }

  /** The lines of the hour groups of a "sleep_stages_by_hour" list. */
  method WriteHourGroups(groups: seq<Json>, spaces: string, esc: string -> string) returns (lines: seq<string>)
    requires forall k :: 0 <= k < |groups| ==> HourGroupReadable(groups[k])
    ensures lines == HourGroupsLines(groups, spaces, esc, |groups|)
  {
    lines := [];
    for j := 0 to |groups|
      invariant lines == HourGroupsLines(groups, spaces, esc, j)
    {
      var group := groups[j];
      var block := [spaces + "    {"];
      block := block + [spaces + "      \"hour_range\": " + Dumps(Get(group.fields, "hour_range", JStr("")), esc) + ","];
      var stages := Iterated(Get(group.fields, "stages", JArr([])));
      block := block + [spaces + "      \"stages\": ["];
      ghost var head := block;
      assert head == GroupHead(group, spaces, esc);
      for k := 0 to |stages|
        invariant block == head + ElementLines(stages, spaces + "        ", esc, k)
      {
        var comma := if k < |stages| - 1 then "," else "";
        block := block + [spaces + "        " + Dumps(stages[k], esc) + comma];
      }
      block := block + [spaces + "      ]"];
      block := block + [spaces + "    }" + (if j < |groups| - 1 then "," else "")];
      GroupLinesStep(groups, spaces, esc, j);
      lines := lines + block;
    }
  }

  lemma GroupLinesStep(groups: seq<Json>, spaces: string, esc: string -> string, j: nat)
    requires j < |groups|
    requires forall k :: 0 <= k < |groups| ==> HourGroupReadable(groups[k])
    ensures var stages := GroupStages(groups[j]);
      HourGroupsLines(groups, spaces, esc, j + 1) == HourGroupsLines(groups, spaces, esc, j)
        + (GroupHead(groups[j], spaces, esc) + ElementLines(stages, spaces + "        ", esc, |stages|)
           + [spaces + "      ]"] + [spaces + "    }" + Comma(j + 1 == |groups|)])
  {
  }
}
