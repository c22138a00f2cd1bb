/**
 * The compact layout is a re-indentation of `json.dumps`: removing the
 * whitespace outside string literals from both gives the same text, so a
 * JSON reader sees the same document in each. This holds when the
 * escaping of strings is sound, when every key is its own escape (the
 * layout writes keys without escaping them) and when every hour group is
 * exactly `{"hour_range": ..., "stages": [...]}` (the layout writes those
 * two entries and no others).
 */
module CompactDocument {
  import opened Text
  import opened CompactJson

  /** Every line ends outside string literals. */
  predicate AllOutside(ls: seq<string>)
  {
    forall k :: 0 <= k < |ls| ==> Outside(ls[k])
  }

  /** The lines with their whitespace removed, one after the other. */
  function MinAll(ls: seq<string>): string
  {
    if ls == [] then "" else Min(ls[0]) + MinAll(ls[1..])
  }

  /** Every key in `v` is written the same escaped or not. */
  predicate KeysVerbatim(v: Json, esc: string -> string)
    decreases v, 1
  {
    match v
    case JArr(items) => forall k :: 0 <= k < |items| ==> KeysVerbatim(items[k], esc)
    case JObj(fields) => forall k :: 0 <= k < |fields| ==> FieldKeysVerbatim(fields[k], esc)
    case _ => true
  }

  predicate FieldKeysVerbatim(f: Field, esc: string -> string)
    decreases f, 0
  {
    esc(f.key) == f.key && KeysVerbatim(f.value, esc)
  }

  /** An hour group with exactly the entries the layout writes. */
  predicate ExactGroup(g: Json)
  {
    && g.JObj? && |g.fields| == 2
    && g.fields[0].key == "hour_range"
    && g.fields[1].key == "stages" && g.fields[1].value.JArr?
  }

  /** Every hour group the layout writes is exact. */
  predicate LayoutExact(v: Json)
    decreases v, 1
  {
    match v
    case JObj(fields) => forall k :: 0 <= k < |fields| ==> FieldLayoutExact(fields[k])
    case _ => true
  }

  predicate FieldLayoutExact(f: Field)
    decreases f, 0
  {
    if IsStagesEntry(f) then true
    else if IsHoursEntry(f) then forall k :: 0 <= k < |f.value.items| ==> ExactGroup(f.value.items[k])
    else LayoutExact(f.value)
  }

  lemma {:induction false} MinAllConcat(a: seq<string>, b: seq<string>)
    ensures MinAll(a + b) == MinAll(a) + MinAll(b)
  {
    if a != [] {
      assert (a + b)[1..] == a[1..] + b;
      MinAllConcat(a[1..], b);
    } else {
      assert a + b == b;
    }
  }

  /** Joining lines that end outside string literals by line breaks. */
  lemma {:induction false} MinJoin(ls: seq<string>)
    requires ls != [] && AllOutside(ls)
    ensures Outside(Join(ls, "\n")) && Min(Join(ls, "\n")) == MinAll(ls)
  {
    if |ls| > 1 {
      var rest := Join(ls[1..], "\n");
      MinJoin(ls[1..]);
      assert ("\n" + rest)[1..] == rest;
      assert ls[0] + "\n" + rest == ls[0] + ("\n" + rest);
      OutsideConcat(ls[0], "\n" + rest);
      MinAppend(ls[0], "\n" + rest);
    }
  }

  /** Indentation is blank. */
  lemma {:induction false} SpacesBlank(indent: nat)
    ensures forall k :: 0 <= k < |Spaces(indent)| ==> Spaces(indent)[k] == ' '
  {
    if indent > 0 {
      SpacesBlank(indent - 1);
    }
  }

  predicate Blank(s: string)
  {
    forall k :: 0 <= k < |s| ==> s[k] == ' '
  }

  lemma {:induction false} BlankMin(s: string)
    requires Blank(s)
    ensures Outside(s) && Min(s) == ""
  {
    if s != [] {
      BlankMin(s[1..]);
    }
  }

  /** An indented line: indentation, then `x`, then a comma or nothing. */
  lemma LineMin(pre: string, x: string, c: string)
    requires Blank(pre) && Outside(x) && (c == "" || c == ",")
    ensures Outside(pre + x + c) && Min(pre + x + c) == Min(x) + c
  {
    BlankMin(pre);
    PlainOutside(c);
    OutsideConcat(x, c);
    MinAppend(x, c);
    assert pre + x + c == pre + (x + c);
    OutsideConcat(pre, x + c);
    MinAppend(pre, x + c);
    assert Min(c) == c;
  }

  /** A keyed value, `"key": x`. */
  lemma KeyedMin(key: string, x: string)
    requires Escaped(key) && Outside(x)
    ensures Outside(Quote(key) + ": " + x) && Min(Quote(key) + ": " + x) == Quote(key) + ":" + Min(x)
  {
    QuoteOutside(key);
    var rest := ": " + x;
    var sx := " " + x;
    assert sx[0] == ' ' && sx[1..] == x;
    assert Outside(sx) && Min(sx) == Min(x);
    assert rest[0] == ':' && rest[1..] == sx;
    assert Outside(rest) && Min(rest) == ":" + Min(x);
    assert Quote(key) + ": " + x == Quote(key) + rest;
    OutsideConcat(Quote(key), rest);
    MinAppend(Quote(key), rest);
  }

  /** A bracketed text, `[x]` or `{x}`. */
  lemma BracketedMin(open: char, x: string, close: char)
    requires Outside(x) && open != '"' && open != ' ' && open != '\n' && close != '"' && close != ' ' && close != '\n'
    ensures Outside([open] + x + [close]) && Min([open] + x + [close]) == [open] + Min(x) + [close]
  {
    assert [close][1..] == [];
    assert Outside([close]) && Min([close]) == [close];
    OutsideConcat(x, [close]);
    MinAppend(x, [close]);
    assert ([open] + x + [close])[1..] == x + [close];
  }

  /** Two texts separated by `", "`. */
  lemma SeparatedMin(x: string, y: string)
    requires Outside(x) && Outside(y)
    ensures Outside(x + ", " + y) && Min(x + ", " + y) == Min(x) + "," + Min(y)
  {
    var rest := ", " + y;
    var sy := " " + y;
    assert Outside(sy) && Min(sy) == Min(y) by {
      assert sy[0] == ' ' && sy[1..] == y;
    }
    assert Outside(rest) && Min(rest) == "," + Min(y) by {
      assert rest[0] == ',' && rest[1..] == sy;
      assert Min(rest) == [','] + Min(sy);
    }
    assert x + ", " + y == x + rest;
    OutsideConcat(x, rest);
    MinAppend(x, rest);
  }

  lemma IntNoQuote(i: int)
    ensures '"' !in IntToString(i) && '\n' !in IntToString(i)
  {
    if i < 0 {
      assert IntToString(i) == "-" + NatToString(-i);
    }
  }

  /** `json.dumps` ends outside string literals. */
  lemma {:induction false} DumpsOutside(v: Json, esc: string -> string)
    requires EscapeSound(esc)
    ensures Outside(Dumps(v, esc))
    decreases v, 1
  {
    match v
    case JNull => PlainOutside("null");
    case JBool(b) => PlainOutside("true"); PlainOutside("false");
    case JInt(i) => IntNoQuote(i); PlainOutside(IntToString(i));
    case JStr(s) => QuoteOutside(esc(s));
    case JArr(items) =>
      DumpsItemsOutside(items, esc, |items|);
      BracketedMin('[', DumpsItems(items, esc, |items|), ']');
    case JObj(fields) =>
      DumpsFieldsOutside(fields, esc, |fields|);
      BracketedMin('{', DumpsFields(fields, esc, |fields|), '}');
  }

  lemma {:induction false} DumpsItemsOutside(items: seq<Json>, esc: string -> string, n: nat)
    requires EscapeSound(esc) && n <= |items|
    ensures Outside(DumpsItems(items, esc, n))
    decreases items, 0, n
  {
    if n == 1 {
      DumpsOutside(items[0], esc);
    } else if n > 1 {
      DumpsItemsOutside(items, esc, n - 1);
      DumpsOutside(items[n - 1], esc);
      SeparatedMin(DumpsItems(items, esc, n - 1), Dumps(items[n - 1], esc));
    }
  }

  lemma {:induction false} DumpsEntryOutside(f: Field, esc: string -> string)
    requires EscapeSound(esc)
    ensures Outside(DumpsEntry(f, esc))
    decreases f, 0
  {
    DumpsOutside(f.value, esc);
    KeyedMin(esc(f.key), Dumps(f.value, esc));
  }

  lemma {:induction false} DumpsFieldsOutside(fields: seq<Field>, esc: string -> string, n: nat)
    requires EscapeSound(esc) && n <= |fields|
    ensures Outside(DumpsFields(fields, esc, n))
    decreases fields, 0, n
  {
    if n == 1 {
      DumpsEntryOutside(fields[0], esc);
    } else if n > 1 {
      DumpsFieldsOutside(fields, esc, n - 1);
      DumpsEntryOutside(fields[n - 1], esc);
      SeparatedMin(DumpsFields(fields, esc, n - 1), DumpsEntry(fields[n - 1], esc));
    }
  }

  lemma {:induction false} EscapedOneLine(body: string)
    requires Escaped(body)
    ensures '\n' !in body
    decreases |body|
  {
    if body != [] {
      if body[0] == '\\' {
        EscapedOneLine(body[2..]);
        assert body == body[..2] + body[2..];
      } else {
        EscapedOneLine(body[1..]);
        assert body == [body[0]] + body[1..];
      }
    }
  }

  /** `json.dumps` without an indent writes no line break. */
  lemma {:induction false} DumpsOneLine(v: Json, esc: string -> string)
    requires EscapeSound(esc)
    ensures '\n' !in Dumps(v, esc)
    decreases v, 1
  {
    match v
    case JNull =>
    case JBool(b) =>
    case JInt(i) => IntNoQuote(i);
    case JStr(s) => EscapedOneLine(esc(s));
    case JArr(items) => DumpsItemsOneLine(items, esc, |items|);
    case JObj(fields) => DumpsFieldsOneLine(fields, esc, |fields|);
  }

  lemma {:induction false} DumpsItemsOneLine(items: seq<Json>, esc: string -> string, n: nat)
    requires EscapeSound(esc) && n <= |items|
    ensures '\n' !in DumpsItems(items, esc, n)
    decreases items, 0, n
  {
    if n == 1 {
      DumpsOneLine(items[0], esc);
    } else if n > 1 {
      DumpsItemsOneLine(items, esc, n - 1);
      DumpsOneLine(items[n - 1], esc);
    }
  }

  lemma {:induction false} DumpsFieldsOneLine(fields: seq<Field>, esc: string -> string, n: nat)
    requires EscapeSound(esc) && n <= |fields|
    ensures '\n' !in DumpsFields(fields, esc, n)
    decreases fields, 0, n
  {
    if n == 1 {
      EscapedOneLine(esc(fields[0].key));
      DumpsOneLine(fields[0].value, esc);
    } else if n > 1 {
      DumpsFieldsOneLine(fields, esc, n - 1);
      EscapedOneLine(esc(fields[n - 1].key));
      DumpsOneLine(fields[n - 1].value, esc);
    }
  }

  /** Line `k` of a list laid out row by row: the item, then a comma unless it is the last. */
  lemma {:induction false} ElementLinesAt(items: seq<Json>, prefix: string, esc: string -> string, n: nat, k: nat)
    requires k < n <= |items|
    ensures ElementLines(items, prefix, esc, n)[k] == prefix + Dumps(items[k], esc) + Comma(k + 1 == |items|)
  {
    if k < n - 1 {
      ElementLinesAt(items, prefix, esc, n - 1, k);
    }
  }

  /** `json.dumps` never ends with a comma. */
  lemma DumpsEnd(v: Json, esc: string -> string)
    ensures var d := Dumps(v, esc); |d| > 0 && d[|d| - 1] != ','
  {
    var d := Dumps(v, esc);
    match v
    case JNull =>
    case JBool(b) =>
    case JInt(i) =>
      var digits := if i < 0 then NatToString(-i) else NatToString(i);
      assert d[|d| - 1] == digits[|digits| - 1];
    case JStr(s) =>
    case JArr(items) =>
    case JObj(fields) =>
  }

  /**
   * Each row of a "stages" list is a line of its own: the row's
   * `json.dumps`, which has no line break, then a comma exactly when
   * another row follows.
   */
  lemma StageRowLine(items: seq<Json>, prefix: string, esc: string -> string, k: nat)
    requires EscapeSound(esc) && '\n' !in prefix && k < |items|
    ensures var line := ElementLines(items, prefix, esc, |items|)[k];
      && line == prefix + Dumps(items[k], esc) + Comma(k + 1 == |items|)
      && '\n' !in line
      && (|line| > 0 && line[|line| - 1] == ',' <==> k + 1 < |items|)
  {
    ElementLinesAt(items, prefix, esc, |items|, k);
    DumpsOneLine(items[k], esc);
    var d := Dumps(items[k], esc);
    assert |d| > 0 && d[|d| - 1] != ',' by {
      DumpsEnd(items[k], esc);
    }
  }

  /** The comma a line layout leaves after the first `n` of `len` entries. */
  function Trail(n: nat, len: nat): string
  {
    if 0 < n < len then "," else ""
  }

  lemma MinAllSnoc(ls: seq<string>, line: string)
    ensures MinAll(ls + [line]) == MinAll(ls) + Min(line)
  {
    MinAllConcat(ls, [line]);
  }

  /**
   * The first `n` rows of a list, one per line, lie outside any string
   * literal and, whitespace stripped, are their `json.dumps` items.
   */
  predicate ElementsMatch(items: seq<Json>, prefix: string, esc: string -> string, n: nat)
    requires n <= |items|
  {
    var ls := ElementLines(items, prefix, esc, n);
    AllOutside(ls) && MinAll(ls) == Min(DumpsItems(items, esc, n)) + Trail(n, |items|)
  }

  /** One more row of a list laid out one per line. */
  lemma ElementLinesSnocMin(items: seq<Json>, prefix: string, esc: string -> string, n: nat)
    requires EscapeSound(esc) && Blank(prefix) && 0 < n <= |items|
    requires ElementsMatch(items, prefix, esc, n - 1)
    ensures ElementsMatch(items, prefix, esc, n)
  {
    var ls, d, c := ElementLines(items, prefix, esc, n - 1), Dumps(items[n - 1], esc), Comma(n == |items|);
    var line := prefix + d + c;
    assert ElementLines(items, prefix, esc, n) == ls + [line];
    assert Outside(line) && Min(line) == Min(d) + c by {
      DumpsOutside(items[n - 1], esc);
      LineMin(prefix, d, c);
    }
    assert MinAll(ls + [line]) == MinAll(ls) + Min(line) by {
      MinAllSnoc(ls, line);
    }
    assert AllOutside(ls + [line]) by {
      AllOutsideFrame(ls, [line], []);
      assert ls + [line] + [] == ls + [line];
    }
    ItemsSnocMin(items, esc, n);
  }

  /** The rows of a list, one per line, against `json.dumps` of the list's items. */
  lemma {:induction false} ElementLinesMin(items: seq<Json>, prefix: string, esc: string -> string, n: nat)
    requires EscapeSound(esc) && Blank(prefix) && n <= |items|
    ensures ElementsMatch(items, prefix, esc, n)
  {
    if n > 0 {
      ElementLinesMin(items, prefix, esc, n - 1);
      ElementLinesSnocMin(items, prefix, esc, n);
    }
  }

  lemma MinAllFrame(head: seq<string>, middle: seq<string>, tail: seq<string>)
    ensures MinAll(head + middle + tail) == MinAll(head) + MinAll(middle) + MinAll(tail)
  {
    MinAllConcat(head + middle, tail);
    MinAllConcat(head, middle);
  }

  lemma BlankConcat(a: string, b: string)
    requires Blank(a) && Blank(b)
    ensures Blank(a + b)
  {
    assert forall k :: 0 <= k < |a + b| ==> (a + b)[k] == if k < |a| then a[k] else b[k - |a|];
  }

  /** A single-character line body: `{`, `[`, `]` or `}`. */
  lemma CharMin(c: char)
    requires c != '"' && c != ' ' && c != '\n'
    ensures Outside([c]) && Min([c]) == [c]
  {
    assert [c][1..] == [];
  }

  lemma AllOutsideFrame(head: seq<string>, middle: seq<string>, tail: seq<string>)
    requires AllOutside(head) && AllOutside(middle) && AllOutside(tail)
    ensures AllOutside(head + middle + tail)
  {
    var ls := head + middle + tail;
    forall k | 0 <= k < |ls|
      ensures Outside(ls[k])
    {
      if k < |head| {
        assert ls[k] == head[k];
      } else if k < |head| + |middle| {
        assert ls[k] == middle[k - |head|];
      } else {
        assert ls[k] == tail[k - |head| - |middle|];
      }
    }
  }

  lemma MinAll2(a: string, b: string)
    ensures MinAll([a, b]) == Min(a) + Min(b)
  {
    assert [a, b][1..] == [b];
    assert [b][1..] == [];
    assert MinAll([b]) == Min(b) + MinAll([]);
    assert Min(b) + "" == Min(b);
  }

  lemma MinAll3(a: string, b: string, c: string)
    ensures MinAll([a, b, c]) == Min(a) + Min(b) + Min(c)
  {
    assert [a, b, c][1..] == [b, c];
    MinAll2(b, c);
  }

  lemma QuotedKeyLiterals()
    ensures "      \"hour_range\": " == "      " + (Quote("hour_range") + ": ")
    ensures "      \"stages\": [" == "      " + (Quote("stages") + ": " + "[")
    ensures "    {" == "    " + "{" && "      ]" == "      " + "]" && "    }" == "    " + "}"
  {
  }

  /** The lines of an exact hour group, cut where the whitespace is. */
  lemma GroupLinesShape(g: Json, spaces: string, esc: string -> string, last: bool)
    requires ExactGroup(g)
    ensures HourGroupReadable(g) && GroupStages(g) == g.fields[1].value.items
    ensures var st := g.fields[1].value.items;
      GroupLines(g, spaces, esc, last)
        == [ (spaces + "    ") + "{" + "",
             (spaces + "      ") + (Quote("hour_range") + ": " + Dumps(g.fields[0].value, esc)) + ",",
             (spaces + "      ") + (Quote("stages") + ": " + "[") + ""]
           + ElementLines(st, spaces + "        ", esc, |st|)
           + [(spaces + "      ") + "]" + "", (spaces + "    ") + "}" + Comma(last)]
  {
    assert Get(g.fields, "hour_range", JStr("")) == g.fields[0].value;
    assert g.fields[1..][0] == g.fields[1];
    assert Get(g.fields, "stages", JArr([])) == g.fields[1].value;
    var dh := Dumps(g.fields[0].value, esc);
    var head := GroupHead(g, spaces, esc);
    assert head[0] == (spaces + "    ") + "{" + "" by {
      QuotedKeyLiterals();
    }
    assert head[1] == (spaces + "      ") + (Quote("hour_range") + ": " + dh) + "," by {
      QuotedKeyLiterals();
    }
    assert head[2] == (spaces + "      ") + (Quote("stages") + ": " + "[") + "" by {
      QuotedKeyLiterals();
    }
    assert spaces + "      ]" == (spaces + "      ") + "]" + "" by {
      QuotedKeyLiterals();
    }
    assert spaces + "    }" + Comma(last) == (spaces + "    ") + "}" + Comma(last) by {
      QuotedKeyLiterals();
    }
  }

  /** One `"key": value` entry of `json.dumps`, whitespace removed. */
  lemma EntryMin(f: Field, esc: string -> string)
    requires esc(f.key) == f.key && Escaped(f.key) && Outside(Dumps(f.value, esc))
    ensures Outside(DumpsEntry(f, esc))
    ensures Min(DumpsEntry(f, esc)) == Quote(f.key) + ":" + Min(Dumps(f.value, esc))
  {
    KeyedMin(f.key, Dumps(f.value, esc));
  }

  /** An entry of `json.dumps` whose key is written verbatim, whitespace removed. */
  lemma VerbatimEntryMin(f: Field, esc: string -> string)
    requires EscapeSound(esc) && FieldKeysVerbatim(f, esc)
    ensures Outside(DumpsEntry(f, esc))
    ensures Min(DumpsEntry(f, esc)) == Quote(f.key) + ":" + Min(Dumps(f.value, esc))
  {
    assert Escaped(esc(f.key));
    DumpsOutside(f.value, esc);
    EntryMin(f, esc);
  }

  /** `json.dumps` of an exact hour group, whitespace removed. */
  lemma ExactGroupDumpsMin(g: Json, esc: string -> string)
    requires EscapeSound(esc) && ExactGroup(g) && KeysVerbatim(g, esc)
    ensures Min(Dumps(g, esc))
      == "{" + (Quote("hour_range") + ":" + Min(Dumps(g.fields[0].value, esc))) + ","
         + (Quote("stages") + ":" + Min(Dumps(g.fields[1].value, esc))) + "}"
  {
    var f0, f1 := g.fields[0], g.fields[1];
    var e0, e1 := DumpsEntry(f0, esc), DumpsEntry(f1, esc);
    var a, b := Quote("hour_range") + ":" + Min(Dumps(f0.value, esc)), Quote("stages") + ":" + Min(Dumps(f1.value, esc));
    assert Dumps(g, esc) == ['{'] + (e0 + ", " + e1) + ['}'] by {
      assert DumpsFields(g.fields, esc, 2) == e0 + ", " + e1;
    }
    assert Outside(e0) && Min(e0) == a by {
      assert FieldKeysVerbatim(f0, esc);
      VerbatimEntryMin(f0, esc);
    }
    assert Outside(e1) && Min(e1) == b by {
      assert FieldKeysVerbatim(f1, esc);
      VerbatimEntryMin(f1, esc);
    }
    assert Min(Dumps(g, esc)) == ['{'] + ((a + ",") + b) + ['}'] by {
      SeparatedMin(e0, e1);
      BracketedMin('{', e0 + ", " + e1, '}');
    }
    BraceRegroup(a, b);
  }

  lemma BraceRegroup(a: string, b: string)
    ensures ['{'] + ((a + ",") + b) + ['}'] == "{" + a + "," + b + "}"
  {
  }

  /** The indentations an hour group uses are blank. */
  lemma Indented(spaces: string)
    requires Blank(spaces)
    ensures Blank(spaces + "    ") && Blank(spaces + "      ") && Blank(spaces + "        ")
  {
    BlankConcat(spaces, "    ");
    BlankConcat(spaces, "      ");
    BlankConcat(spaces, "        ");
  }

  /** A text with no quote, backslash or line break needs no escaping. */
  lemma {:induction false} PlainEscaped(s: string)
    requires forall k :: 0 <= k < |s| ==> s[k] != '"' && s[k] != '\\' && s[k] != '\n'
    ensures Escaped(s)
  {
    if s != [] {
      PlainEscaped(s[1..]);
    }
  }

  /** The three lines that open an hour group, whitespace removed. */
  lemma GroupOpeningMin(spaces: string, dh: string)
    requires Blank(spaces) && Outside(dh)
    ensures var b4, b6 := spaces + "    ", spaces + "      ";
      var ls := [b4 + "{" + "", b6 + (Quote("hour_range") + ": " + dh) + ",", b6 + (Quote("stages") + ": " + "[") + ""];
      AllOutside(ls) && MinAll(ls) == "{" + (Quote("hour_range") + ":" + Min(dh) + ",") + (Quote("stages") + ":" + "[")
  {
    var b4, b6 := spaces + "    ", spaces + "      ";
    Indented(spaces);
    var qh, qs := Quote("hour_range"), Quote("stages");
    var l1, l2, l3 := b4 + "{" + "", b6 + (qh + ": " + dh) + ",", b6 + (qs + ": " + "[") + "";
    assert Outside(l1) && Min(l1) == "{" by {
      CharMin('{');
      LineMin(b4, "{", "");
    }
    assert Outside(l2) && Min(l2) == qh + ":" + Min(dh) + "," by {
      PlainEscaped("hour_range");
      KeyedMin("hour_range", dh);
      LineMin(b6, qh + ": " + dh, ",");
    }
    assert Outside(l3) && Min(l3) == qs + ":" + "[" by {
      PlainEscaped("stages");
      CharMin('[');
      KeyedMin("stages", "[");
      LineMin(b6, qs + ": " + "[", "");
    }
    MinAll3(l1, l2, l3);
  }

  /** The two lines that close an hour group, whitespace removed. */
  lemma GroupClosingMin(spaces: string, last: bool)
    requires Blank(spaces)
    ensures var ls := [(spaces + "      ") + "]" + "", (spaces + "    ") + "}" + Comma(last)];
      AllOutside(ls) && MinAll(ls) == "]" + "}" + Comma(last)
  {
    var b4, b6 := spaces + "    ", spaces + "      ";
    Indented(spaces);
    var l4, l5 := b6 + "]" + "", b4 + "}" + Comma(last);
    assert Outside(l4) && Min(l4) == "]" by {
      CharMin(']');
      LineMin(b6, "]", "");
    }
    assert Outside(l5) && Min(l5) == "}" + Comma(last) by {
      CharMin('}');
      LineMin(b4, "}", Comma(last));
    }
    MinAll2(l4, l5);
  }

  /** Regrouping the pieces of an hour group's text. */
  lemma GroupRegroup(lb: string, hk: string, cm: string, sk: string, ob: string, m: string, cb: string, rb: string, c: string)
    ensures lb + (hk + cm) + (sk + ob) + m + (cb + rb + c) == lb + hk + cm + (sk + (ob + m + cb)) + rb + c
  {
  }

  /** An exact hour group laid out over lines, against `json.dumps` of it. */
  lemma GroupLinesMin(g: Json, spaces: string, esc: string -> string, last: bool)
    requires EscapeSound(esc) && Blank(spaces) && ExactGroup(g) && KeysVerbatim(g, esc)
    ensures HourGroupReadable(g)
    ensures AllOutside(GroupLines(g, spaces, esc, last))
    ensures MinAll(GroupLines(g, spaces, esc, last)) == Min(Dumps(g, esc)) + Comma(last)
  {
    GroupLinesShape(g, spaces, esc, last);
    var hr, st := g.fields[0].value, g.fields[1].value.items;
    var dh, di := Dumps(hr, esc), DumpsItems(st, esc, |st|);
    var qh, qs := Quote("hour_range"), Quote("stages");
    var opening := [ (spaces + "    ") + "{" + "", (spaces + "      ") + (qh + ": " + dh) + ",",
                     (spaces + "      ") + (qs + ": " + "[") + ""];
    var closing := [(spaces + "      ") + "]" + "", (spaces + "    ") + "}" + Comma(last)];
    var els := ElementLines(st, spaces + "        ", esc, |st|);
    assert GroupLines(g, spaces, esc, last) == opening + els + closing;
    var hk, sk := qh + ":" + Min(dh), qs + ":";
    assert AllOutside(opening) && MinAll(opening) == "{" + (hk + ",") + (sk + "[") by {
      DumpsOutside(hr, esc);
      GroupOpeningMin(spaces, dh);
    }
    assert AllOutside(closing) && MinAll(closing) == "]" + "}" + Comma(last) by {
      GroupClosingMin(spaces, last);
    }
    assert AllOutside(els) && MinAll(els) == Min(di) by {
      Indented(spaces);
      ElementLinesMin(st, spaces + "        ", esc, |st|);
    }
    assert Min(Dumps(g, esc)) == "{" + hk + "," + (sk + ("[" + Min(di) + "]")) + "}" by {
      assert Min(Dumps(g.fields[1].value, esc)) == "[" + Min(di) + "]" by {
        DumpsItemsOutside(st, esc, |st|);
        BracketedMin('[', di, ']');
      }
      ExactGroupDumpsMin(g, esc);
    }
    assert MinAll(opening + els + closing) == MinAll(opening) + MinAll(els) + MinAll(closing) by {
      MinAllFrame(opening, els, closing);
    }
    GroupRegroup("{", hk, ",", sk, "[", Min(di), "]", "}", Comma(last));
    AllOutsideFrame(opening, els, closing);
  }

  lemma ExactReadable(g: Json)
    requires ExactGroup(g)
    ensures HourGroupReadable(g)
  {
    GroupLinesShape(g, "", x => x, true);
  }

  /**
   * The first `n` hour groups laid out over lines lie outside any string
   * literal and, whitespace stripped, are their `json.dumps` items.
   */
  predicate HourGroupsMatch(groups: seq<Json>, spaces: string, esc: string -> string, n: nat)
    requires n <= |groups|
    requires forall k :: 0 <= k < |groups| ==> HourGroupReadable(groups[k])
  {
    var ls := HourGroupsLines(groups, spaces, esc, n);
    AllOutside(ls) && MinAll(ls) == Min(DumpsItems(groups, esc, n)) + Trail(n, |groups|)
  }

  /** One more item of a list, whitespace stripped, followed by the comma that separates it from the next. */
  lemma ItemsSnocMin(items: seq<Json>, esc: string -> string, n: nat)
    requires EscapeSound(esc) && 0 < n <= |items|
    ensures Min(DumpsItems(items, esc, n)) + Trail(n, |items|)
      == (Min(DumpsItems(items, esc, n - 1)) + Trail(n - 1, |items|)) + (Min(Dumps(items[n - 1], esc)) + Comma(n == |items|))
  {
    var d := Dumps(items[n - 1], esc);
    if n > 1 {
      assert Min(DumpsItems(items, esc, n)) == Min(DumpsItems(items, esc, n - 1)) + "," + Min(d) by {
        DumpsItemsOutside(items, esc, n - 1);
        DumpsOutside(items[n - 1], esc);
        SeparatedMin(DumpsItems(items, esc, n - 1), d);
      }
    } else {
      assert DumpsItems(items, esc, n) == d;
    }
  }

  /** One more hour group of a list laid out over lines. */
  lemma HourGroupsLinesSnocMin(groups: seq<Json>, spaces: string, esc: string -> string, n: nat)
    requires EscapeSound(esc) && 0 < n <= |groups|
    requires forall k :: 0 <= k < |groups| ==> HourGroupReadable(groups[k])
    requires HourGroupsMatch(groups, spaces, esc, n - 1)
    requires Blank(spaces) && ExactGroup(groups[n - 1]) && KeysVerbatim(groups[n - 1], esc)
    ensures HourGroupsMatch(groups, spaces, esc, n)
  {
    var ls, gl := HourGroupsLines(groups, spaces, esc, n - 1), GroupLines(groups[n - 1], spaces, esc, n == |groups|);
    GroupLinesMin(groups[n - 1], spaces, esc, n == |groups|);
    assert HourGroupsLines(groups, spaces, esc, n) == ls + gl;
    assert MinAll(ls + gl) == MinAll(ls) + MinAll(gl) by {
      MinAllConcat(ls, gl);
    }
    assert AllOutside(ls + gl) by {
      AllOutsideFrame(ls, gl, []);
      assert ls + gl + [] == ls + gl;
    }
    ItemsSnocMin(groups, esc, n);
  }

  /** The hour groups of a list laid out over lines, against `json.dumps` of the list's items. */
  lemma {:induction false} HourGroupsLinesMin(groups: seq<Json>, spaces: string, esc: string -> string, n: nat)
    requires EscapeSound(esc) && Blank(spaces) && n <= |groups|
    requires forall k :: 0 <= k < |groups| ==> HourGroupReadable(groups[k])
    requires forall k :: 0 <= k < |groups| ==> ExactGroup(groups[k]) && KeysVerbatim(groups[k], esc)
    ensures HourGroupsMatch(groups, spaces, esc, n)
  {
    if n > 0 {
      HourGroupsLinesMin(groups, spaces, esc, n - 1);
      HourGroupsLinesSnocMin(groups, spaces, esc, n);
    }
  }

  lemma MinAll1(a: string)
    ensures MinAll([a]) == Min(a)
  {
    assert [a][1..] == [];
    assert Min(a) + "" == Min(a);
  }

  lemma KeyLiterals()
    ensures "  \"" == "  " + "\"" && "\": " == "\"" + ": " && "\": [" == "\"" + ": " + "["
    ensures "  ]" == "  " + "]"
  {
  }

  /** A `"key": x` line of a dictionary's layout, whitespace removed. */
  lemma KeyLineMin(spaces: string, key: string, x: string, c: string)
    requires Blank(spaces) && Escaped(key) && Outside(x) && (c == "" || c == ",")
    ensures Outside(spaces + "  \"" + key + "\": " + x + c)
    ensures Min(spaces + "  \"" + key + "\": " + x + c) == Quote(key) + ":" + Min(x) + c
  {
    assert spaces + "  \"" + key + "\": " + x + c == (spaces + "  ") + (Quote(key) + ": " + x) + c by {
      KeyLiterals();
    }
    BlankConcat(spaces, "  ");
    KeyedMin(key, x);
    LineMin(spaces + "  ", Quote(key) + ": " + x, c);
  }

  /** The `"key": [` line that opens a list laid out row by row, whitespace removed. */
  lemma KeyOpenMin(spaces: string, key: string)
    requires Blank(spaces) && Escaped(key)
    ensures Outside(spaces + "  \"" + key + "\": [")
    ensures Min(spaces + "  \"" + key + "\": [") == Quote(key) + ":" + "["
  {
    assert spaces + "  \"" + key + "\": [" == spaces + "  \"" + key + "\": " + "[" + "" by {
      KeyLiterals();
    }
    CharMin('[');
    KeyLineMin(spaces, key, "[", "");
  }

  /** The `]` line that closes a list laid out row by row, whitespace removed. */
  lemma CloseMin(spaces: string, c: string)
    requires Blank(spaces) && (c == "" || c == ",")
    ensures Outside(spaces + "  ]" + c) && Min(spaces + "  ]" + c) == "]" + c
  {
    assert spaces + "  ]" + c == (spaces + "  ") + "]" + c by {
      KeyLiterals();
    }
    BlankConcat(spaces, "  ");
    CharMin(']');
    LineMin(spaces + "  ", "]", c);
  }

  lemma FramedRegroup(q: string, m: string, c: string)
    ensures q + ":" + "[" + m + ("]" + c) == q + ":" + ("[" + m + "]") + c
  {
  }

  /** A list laid out between an opening and a closing line, whitespace removed. */
  lemma FramedListMin(open: string, rows: seq<string>, close: string, key: string, di: string, c: string)
    requires Escaped(key) && Outside(open) && Min(open) == Quote(key) + ":" + "["
    requires AllOutside(rows) && MinAll(rows) == Min(di) && Outside(di)
    requires Outside(close) && Min(close) == "]" + c
    ensures AllOutside([open] + rows + [close])
    ensures MinAll([open] + rows + [close]) == Min(Quote(key) + ": " + ("[" + di + "]")) + c
  {
    assert AllOutside([open]) && AllOutside([close]);
    AllOutsideFrame([open], rows, [close]);
    assert MinAll([open] + rows + [close]) == Quote(key) + ":" + "[" + Min(di) + ("]" + c) by {
      MinAllFrame([open], rows, [close]);
      MinAll1(open);
      MinAll1(close);
    }
    assert Min(Quote(key) + ": " + ("[" + di + "]")) == Quote(key) + ":" + ("[" + Min(di) + "]") by {
      BracketedMin('[', di, ']');
      KeyedMin(key, "[" + di + "]");
    }
    FramedRegroup(Quote(key), Min(di), c);
  }

  /**
   * A dictionary entry laid out over lines lies outside any string literal
   * and, whitespace stripped, is the entry's `json.dumps` text.
   */
  predicate EntryMatch(f: Field, indent: nat, esc: string -> string, last: bool)
    requires FieldFormattable(f)
  {
    var e := EntryLines(f, indent, esc, last);
    AllOutside(e) && MinAll(e) == Min(DumpsEntry(f, esc)) + Comma(last)
  }

  /** The first `n` entries of a dictionary laid out over lines, likewise. */
  predicate FieldsMatch(fields: seq<Field>, indent: nat, esc: string -> string, n: nat)
    requires n <= |fields|
    requires forall k :: 0 <= k < |fields| ==> FieldFormattable(fields[k])
  {
    var ls := FieldsLines(fields, indent, esc, n);
    AllOutside(ls) && MinAll(ls) == Min(DumpsFields(fields, esc, n)) + Trail(n, |fields|)
  }

  /** The `sleep_stages` entry, one stage row per line. */
  lemma StagesEntryMin(f: Field, indent: nat, esc: string -> string, last: bool)
    requires EscapeSound(esc) && FieldFormattable(f) && IsStagesEntry(f) && Escaped(f.key)
    requires DumpsEntry(f, esc) == Quote(f.key) + ": " + Dumps(f.value, esc)
    ensures EntryMatch(f, indent, esc, last)
  {
    var spaces, c := Spaces(indent), Comma(last);
    SpacesBlank(indent);
    EntryLinesCases(f, indent, esc, last);
    var items := f.value.items;
    var di := DumpsItems(items, esc, |items|);
    var rows := ElementLines(items, spaces + "    ", esc, |items|);
    assert AllOutside(rows) && MinAll(rows) == Min(di) by {
      BlankConcat(spaces, "    ");
      ElementLinesMin(items, spaces + "    ", esc, |items|);
      assert Min(di) + "" == Min(di);
    }
    KeyOpenMin(spaces, f.key);
    CloseMin(spaces, c);
    DumpsItemsOutside(items, esc, |items|);
    FramedListMin(spaces + "  \"" + f.key + "\": [", rows, spaces + "  ]" + c, f.key, di, c);
  }

  /** The `sleep_stages_by_hour` entry, each hour group over lines of its own. */
  lemma HoursEntryMin(f: Field, indent: nat, esc: string -> string, last: bool)
    requires EscapeSound(esc) && FieldFormattable(f) && IsHoursEntry(f) && Escaped(f.key)
    requires FieldLayoutExact(f) && FieldKeysVerbatim(f, esc)
    requires DumpsEntry(f, esc) == Quote(f.key) + ": " + Dumps(f.value, esc)
    ensures EntryMatch(f, indent, esc, last)
  {
    var spaces, c := Spaces(indent), Comma(last);
    SpacesBlank(indent);
    EntryLinesCases(f, indent, esc, last);
    var groups := f.value.items;
    var di := DumpsItems(groups, esc, |groups|);
    var rows := HourGroupsLines(groups, spaces, esc, |groups|);
    assert AllOutside(rows) && MinAll(rows) == Min(di) by {
      assert KeysVerbatim(f.value, esc);
      HourGroupsLinesMin(groups, spaces, esc, |groups|);
      assert Min(di) + "" == Min(di);
    }
    KeyOpenMin(spaces, f.key);
    CloseMin(spaces, c);
    DumpsItemsOutside(groups, esc, |groups|);
    FramedListMin(spaces + "  \"" + f.key + "\": [", rows, spaces + "  ]" + c, f.key, di, c);
  }

  /** One dictionary entry laid out over lines, against `json.dumps` of the entry. */
  lemma {:induction false} EntryLinesMin(f: Field, indent: nat, esc: string -> string, last: bool)
    requires EscapeSound(esc) && FieldFormattable(f) && FieldLayoutExact(f) && FieldKeysVerbatim(f, esc)
    ensures EntryMatch(f, indent, esc, last)
    decreases f, 0
  {
    assert Escaped(f.key) by {
      assert Escaped(esc(f.key));
    }
    assert DumpsEntry(f, esc) == Quote(f.key) + ": " + Dumps(f.value, esc);
    if IsStagesEntry(f) {
      StagesEntryMin(f, indent, esc, last);
    } else if IsHoursEntry(f) {
      HoursEntryMin(f, indent, esc, last);
    } else {
      var spaces, c := Spaces(indent), Comma(last);
      SpacesBlank(indent);
      EntryLinesCases(f, indent, esc, last);
      var x := Format(f.value, indent + 1, esc);
      assert Outside(x) && Min(x) == Min(Dumps(f.value, esc)) by {
        if f.value.JObj? {
          FormatMin(f.value, indent + 1, esc);
        } else {
          DumpsOutside(f.value, esc);
        }
      }
      var line := spaces + "  \"" + f.key + "\": " + x + c;
      KeyLineMin(spaces, f.key, x, c);
      MinAll1(line);
      assert Min(DumpsEntry(f, esc)) == Quote(f.key) + ":" + Min(x) by {
        DumpsOutside(f.value, esc);
        KeyedMin(f.key, Dumps(f.value, esc));
      }
    }
  }

  /** One more entry of a dictionary, whitespace stripped, followed by the comma after it. */
  lemma EntriesSnocMin(fields: seq<Field>, esc: string -> string, n: nat)
    requires EscapeSound(esc) && 0 < n <= |fields|
    ensures Min(DumpsFields(fields, esc, n)) + Trail(n, |fields|)
      == (Min(DumpsFields(fields, esc, n - 1)) + Trail(n - 1, |fields|)) + (Min(DumpsEntry(fields[n - 1], esc)) + Comma(n == |fields|))
  {
    var d := DumpsEntry(fields[n - 1], esc);
    if n > 1 {
      assert Min(DumpsFields(fields, esc, n)) == Min(DumpsFields(fields, esc, n - 1)) + "," + Min(d) by {
        DumpsFieldsOutside(fields, esc, n - 1);
        DumpsEntryOutside(fields[n - 1], esc);
        SeparatedMin(DumpsFields(fields, esc, n - 1), d);
      }
    } else {
      assert DumpsFields(fields, esc, n) == d;
    }
  }

  /** One more entry of a dictionary laid out over lines. */
  lemma FieldsLinesSnocMin(fields: seq<Field>, indent: nat, esc: string -> string, n: nat)
    requires EscapeSound(esc) && 0 < n <= |fields|
    requires forall k :: 0 <= k < |fields| ==> FieldFormattable(fields[k])
    requires FieldsMatch(fields, indent, esc, n - 1)
    requires EntryMatch(fields[n - 1], indent, esc, n == |fields|)
    ensures FieldsMatch(fields, indent, esc, n)
  {
    var ls, e := FieldsLines(fields, indent, esc, n - 1), EntryLines(fields[n - 1], indent, esc, n == |fields|);
    assert FieldsLines(fields, indent, esc, n) == ls + e;
    assert MinAll(ls + e) == MinAll(ls) + MinAll(e) by {
      MinAllConcat(ls, e);
    }
    assert AllOutside(ls + e) by {
      AllOutsideFrame(ls, e, []);
      assert ls + e + [] == ls + e;
    }
    EntriesSnocMin(fields, esc, n);
  }

  /** The entries of a dictionary laid out over lines, against `json.dumps` of them. */
  lemma {:induction false} FieldsLinesMin(fields: seq<Field>, indent: nat, esc: string -> string, n: nat)
    requires EscapeSound(esc) && n <= |fields|
    requires forall k :: 0 <= k < |fields| ==> FieldFormattable(fields[k])
    requires forall k :: 0 <= k < |fields| ==> FieldLayoutExact(fields[k]) && FieldKeysVerbatim(fields[k], esc)
    ensures FieldsMatch(fields, indent, esc, n)
    decreases fields, 1, n
  {
    if n > 0 {
      FieldsLinesMin(fields, indent, esc, n - 1);
      EntryLinesMin(fields[n - 1], indent, esc, n == |fields|);
      FieldsLinesSnocMin(fields, indent, esc, n);
    }
  }

  /**
   * `format_value` against `json.dumps`: with whitespace outside string
   * literals removed, the two texts are the same.
   */
  lemma {:induction false} FormatMin(v: Json, indent: nat, esc: string -> string)
    requires EscapeSound(esc) && Formattable(v) && LayoutExact(v) && KeysVerbatim(v, esc)
    ensures Outside(Format(v, indent, esc))
    ensures Min(Format(v, indent, esc)) == Min(Dumps(v, esc))
    decreases v, 2
  {
    match v
    case JObj(fields) =>
      if fields == [] {
        PlainOutside("{}");
        assert Dumps(v, esc) == "{}";
      } else {
        var df := DumpsFields(fields, esc, |fields|);
        var body := FieldsLines(fields, indent, esc, |fields|);
        var close := Spaces(indent) + "}" + "";
        assert AllOutside(body) && MinAll(body) == Min(df) by {
          FieldsLinesMin(fields, indent, esc, |fields|);
          assert Min(df) + "" == Min(df);
        }
        assert Outside("{") && Min("{") == "{" by {
          CharMin('{');
        }
        assert Outside(close) && Min(close) == "}" by {
          SpacesBlank(indent);
          CharMin('}');
          LineMin(Spaces(indent), "}", "");
        }
        assert Spaces(indent) + "}" == close;
        var lines := ["{"] + body + [close];
        assert AllOutside(lines) by {
          assert AllOutside(["{"]) && AllOutside([close]);
          AllOutsideFrame(["{"], body, [close]);
        }
        assert MinAll(lines) == "{" + Min(df) + "}" by {
          MinAllFrame(["{"], body, [close]);
          MinAll1("{");
          MinAll1(close);
        }
        MinJoin(lines);
        DumpsFieldsOutside(fields, esc, |fields|);
        BracketedMin('{', df, '}');
      }
    case _ =>
      DumpsOutside(v, esc);
  }
}

