/** The JSON values that Crow writes, and the printer behind `wvalue::dump`. */
module JsonPrinter {
  import opened Prelude
  import opened JsonStrings

  /** A written value without floating-point numbers; the fields are in the iteration order of the container. */
  datatype Value =
    | Null
    | Bool(b: bool)
    | Int(n: int)
    | Str(s: string)
    | List(items: seq<Value>)
    | Object(fields: seq<(string, Value)>)

  /** A negative indent prints compactly. */
  datatype Layout = Layout(indent: int, separator: char)

  function Repeat(c: char, n: nat): (s: string)
    ensures |s| == n && forall k :: k in s ==> k == c
  {
    seq(n, _ => c)
  }

  /** `dump_indentation_part`, which compact output leaves out. */
  function NewLine(lay: Layout, level: nat): string {
    if lay.indent >= 0 then "\n" + Repeat(lay.separator, level * lay.indent) else ""
  }

  function Quoted(s: string): string { "\"" + Escaped(s) + "\"" }

  function Colon(lay: Layout): string { if lay.indent >= 0 then ": " else ":" }

  function Dump(v: Value, lay: Layout, level: nat): string
    decreases v, 1
  {
    match v
    case Null => "null"
    case Bool(b) => if b then "true" else "false"
    case Int(n) => IntText(n)
    case Str(s) => Quoted(s)
    case List(items) => ListText(items, lay, level)
    case Object(fields) => ObjectText(fields, lay, level)
  }

  function ListText(items: seq<Value>, lay: Layout, level: nat): string
    decreases items, 1
  {
    Frame("[", ItemsText(items, lay, level + 1), "]", lay, level)
  }

  function ObjectText(fields: seq<(string, Value)>, lay: Layout, level: nat): string
    decreases fields, 1
  {
    Frame("{", FieldsText(fields, lay, level + 1), "}", lay, level)
  }

  /** A container's text around the text of its elements. */
  function Frame(open: string, body: string, close: string, lay: Layout, level: nat): string {
    open + NewLine(lay, level + 1) + body + NewLine(lay, level) + close
  }

  function ItemsText(items: seq<Value>, lay: Layout, level: nat): string
    decreases items, 0
  {
    if items == [] then "" else Dump(items[0], lay, level) + DumpMore(items[1..], lay, level)
  }

  function FieldsText(fields: seq<(string, Value)>, lay: Layout, level: nat): string
    decreases fields, 0
  {
    if fields == [] then "" else DumpField(fields[0], lay, level) + DumpMoreFields(fields[1..], lay, level)
  }

  /** The items after the first, each with its comma. */
  function DumpMore(items: seq<Value>, lay: Layout, level: nat): string
    decreases items, 0
  {
    if items == [] then ""
    else "," + NewLine(lay, level) + Dump(items[0], lay, level) + DumpMore(items[1..], lay, level)
  }

  function DumpField(f: (string, Value), lay: Layout, level: nat): string
    decreases f, 2
  {
    Quoted(f.0) + Colon(lay) + Dump(f.1, lay, level)
  }

  function DumpMoreFields(fields: seq<(string, Value)>, lay: Layout, level: nat): string
    decreases fields, 0
  {
    if fields == [] then ""
    else "," + NewLine(lay, level) + DumpField(fields[0], lay, level) + DumpMoreFields(fields[1..], lay, level)
  }

  // ---------------------------------------------------------------- the printer

  method DumpString(s: string, out0: string) returns (out: string)
    ensures out == out0 + Quoted(s)
  {
    out := Escape(s, out0 + "\"");
    out := out + "\"";
  }

  method DumpIndentation(out0: string, lay: Layout, level: nat) returns (out: string)
    ensures out == out0 + NewLine(lay, level)
  {
    out := out0;
    if lay.indent >= 0 {
      out := out + "\n";
      out := out + Repeat(lay.separator, level * lay.indent);
    }
  }

  /** `dump_internal`: appends the text of `v` to the output. */
  method DumpInternal(v: Value, out0: string, lay: Layout, level: nat) returns (out: string)
    ensures out == out0 + Dump(v, lay, level)
    decreases v, 1
  {
    out := out0;
    match v {
      case Null => out := out + "null";
      case Bool(b) => out := out + (if b then "true" else "false");
      case Int(n) => out := out + IntText(n);
      case Str(s) => out := DumpString(s, out);
      case List(items) =>
        out := out + "[";
        out := DumpIndentation(out, lay, level + 1);
        out := DumpItems(items, out, lay, level + 1);
        out := DumpIndentation(out, lay, level);
        out := out + "]";
        FrameAppended(out0, "[", ItemsText(items, lay, level + 1), "]", lay, level);
      case Object(fields) =>
        out := out + "{";
        out := DumpIndentation(out, lay, level + 1);
        out := DumpFields(fields, out, lay, level + 1);
        out := DumpIndentation(out, lay, level);
        out := out + "}";
        FrameAppended(out0, "{", FieldsText(fields, lay, level + 1), "}", lay, level);
    }
  }

  lemma {:induction false} FrameAppended(out: string, open: string, body: string, close: string, lay: Layout,
      level: nat)
    ensures out + open + NewLine(lay, level + 1) + body + NewLine(lay, level) + close ==
            out + Frame(open, body, close, lay, level)
  {
  }

  /** The loop over a list, with its `first` flag. */
  method DumpItems(items: seq<Value>, out0: string, lay: Layout, level: nat) returns (out: string)
    ensures out == out0 + ItemsText(items, lay, level)
    decreases items, 0
  {
    out := out0;
    var first := true;
    for i := 0 to |items|
      invariant first == (i == 0)
      invariant i == 0 ==> out == out0
      invariant i > 0 ==> out + DumpMore(items[i..], lay, level) == out0 + ItemsText(items, lay, level)
    {
      ghost var before := out;
      if !first {
        out := out + ",";
        out := DumpIndentation(out, lay, level);
      }
      first := false;
      out := DumpInternal(items[i], out, lay, level);
      assert items[i..][1..] == items[i + 1..];
      if i > 0 {
        Regroup(before, ",", NewLine(lay, level), Dump(items[i], lay, level), DumpMore(items[i + 1..], lay, level));
      }
    }
    assert items != [] ==> items[|items|..] == [];
  }

  method DumpOneField(f: (string, Value), out0: string, lay: Layout, level: nat) returns (out: string)
    ensures out == out0 + DumpField(f, lay, level)
    decreases f, 2
  {
    out := DumpString(f.0, out0);
    out := out + ":";
    if lay.indent >= 0 {
      out := out + " ";
    }
    assert out == out0 + (Quoted(f.0) + Colon(lay));
    out := DumpInternal(f.1, out, lay, level);
  }

  method DumpFields(fields: seq<(string, Value)>, out0: string, lay: Layout, level: nat) returns (out: string)
    ensures out == out0 + FieldsText(fields, lay, level)
    decreases fields, 0
  {
    out := out0;
    var first := true;
    for i := 0 to |fields|
      invariant first == (i == 0)
      invariant i == 0 ==> out == out0
      invariant i > 0 ==> out + DumpMoreFields(fields[i..], lay, level) == out0 + FieldsText(fields, lay, level)
    {
      ghost var before := out;
      if !first {
        out := out + ",";
        out := DumpIndentation(out, lay, level);
      }
      first := false;
      out := DumpOneField(fields[i], out, lay, level);
      assert fields[i..][1..] == fields[i + 1..];
      if i > 0 {
        Regroup(before, ",", NewLine(lay, level), DumpField(fields[i], lay, level),
          DumpMoreFields(fields[i + 1..], lay, level));
      }
    }
    assert fields != [] ==> fields[|fields|..] == [];
  }

  lemma {:induction false} Regroup(a: string, b: string, c: string, d: string, e: string)
    ensures a + b + c + d + e == a + (b + c + d + e)
  {
  }
}
