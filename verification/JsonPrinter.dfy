/** json-c/json_object.c: values to text. */
module JsonPrinter {
  import opened JsonValue

  /** JSON_C_TO_STRING_SPACED and JSON_C_TO_STRING_PRETTY; neither is JSON_C_TO_STRING_PLAIN. */
  datatype Flags = Flags(spaced: bool, pretty: bool)

  /** json_hex_chars */
  function HexChar(n: nat): char
    requires n < 16
  {
    if n < 10 then '0' + n as char else 'a' + (n - 10) as char
  }

  /** What json_escape_str writes for one character. */
  function Escaped(c: char): string {
    if c == 8 as char then "\\b"
    else if c == '\n' then "\\n"
    else if c == '\r' then "\\r"
    else if c == '\t' then "\\t"
    else if c == 12 as char then "\\f"
    else if c == '"' then "\\\""
    else if c == '\\' then "\\\\"
    else if c == '/' then "\\/"
    else if c < ' ' then "\\u00" + [HexChar(c as int / 16), HexChar(c as int % 16)]
    else [c]
  }

  function Escape(s: string): string {
    if s == "" then "" else Escaped(s[0]) + Escape(s[1..])
  }

  function Digits(n: nat): (r: string)
    ensures r != "" && forall c :: c in r ==> IsDigit(c)
  {
    if n < 10 then ['0' + n as char] else Digits(n / 10) + ['0' + (n % 10) as char]
  }

  function IntText(n: int): string {
    if n < 0 then "-" + Digits(-n) else Digits(n)
  }

  function Spaces(n: nat): (r: string)
    ensures |r| == n && forall c :: c in r ==> c == ' '
  {
    if n == 0 then "" else " " + Spaces(n - 1)
  }

  function NewLine(f: Flags): string {
    if f.pretty then "\n" else ""
  }

  /** indent */
  function Indent(level: nat, f: Flags): string {
    if f.pretty then Spaces(level * 2) else ""
  }

  function Space(f: Flags): string {
    if f.spaced then " " else ""
  }

  function Quote(s: string): string {
    "\"" + Escape(s) + "\""
  }

  /** What stands behind the last of n members. */
  function Closing(n: nat, level: nat, f: Flags, bracket: string): string {
    (if n > 0 then NewLine(f) else "") + Indent(level, f) + Space(f) + bracket
  }

  /** What _to_json_string of a value writes. */
  function Print(v: Json, level: nat, f: Flags): string
    decreases v, 1, 0
  {
    match v
    case Null => "null"
    case Bool(b) => if b then "true" else "false"
    case Int(n) => IntText(n)
    case Double(text) => text
    case Infinity(negative) => if negative then "-Infinity" else "Infinity"
    case NaN => "NaN"
    case Str(s) => Quote(s)
    case Array(items) => "[" + NewLine(f) + PrintItems(v, 0, level, f)
    case Object(fields) => "{" + NewLine(f) + PrintFields(v, 0, level, f)
  }

  /** The items from the i-th on, and the bracket. */
  function PrintItems(v: Json, i: nat, level: nat, f: Flags): string
    requires v.Array? && i <= |v.items|
    decreases v, 0, |v.items| - i
  {
    if i == |v.items| then Closing(i, level, f, "]")
    else Space(f) + Indent(level + 1, f) + Print(v.items[i], level + 1, f)
         + (if i + 1 < |v.items| then "," + NewLine(f) else "") + PrintItems(v, i + 1, level, f)
  }

  function PrintFields(v: Json, i: nat, level: nat, f: Flags): string
    requires v.Object? && i <= |v.fields|
    decreases v, 0, |v.fields| - i
  {
    if i == |v.fields| then Closing(i, level, f, "}")
    else
      Space(f) + Indent(level + 1, f) + Quote(CString(v.fields[i].key)) + ":" + Space(f)
        + Print(v.fields[i].value, level + 1, f) + (if i + 1 < |v.fields| then "," + NewLine(f) else "")
        + PrintFields(v, i + 1, level, f)
  }

  lemma {:induction false} EscapeConcat(s: string, t: string)
    ensures Escape(s + t) == Escape(s) + Escape(t)
  {
    hide Escaped;
    if s == "" {
      assert s + t == t;
    } else {
      assert (s + t)[0] == s[0] && (s + t)[1..] == s[1..] + t;
      EscapeConcat(s[1..], t);
    }
  }

  /** The characters that json_escape_str writes as they are */
  predicate IsPlain(c: char) {
    c >= ' ' && c != '"' && c != '\\' && c != '/'
  }

  lemma EscapeStep(s: string, pos: nat)
    requires pos < |s|
    ensures Escape(s[..pos+1]) == Escape(s[..pos]) + Escaped(s[pos])
      && (IsPlain(s[pos]) ==> Escaped(s[pos]) == [s[pos]])
  {
    assert s[..pos+1] == s[..pos] + [s[pos]];
    EscapeConcat(s[..pos], [s[pos]]);
    assert Escape([s[pos]]) == Escaped(s[pos]) + Escape("");
  }

  lemma Slices(s: string, start: nat, pos: nat, buf: string)
    requires start <= pos <= |s|
    ensures pos < |s| ==> buf + s[start..pos+1] == buf + s[start..pos] + [s[pos]] && s[pos+1..pos+1] == ""
    ensures (start == pos ==> s[start..pos] == "") && s[..|s|] == s && buf + "" == buf
    ensures forall e: string :: buf + e + "" == buf + e
  {
  }

  lemma EscapeNone(s: string)
    ensures s[..0] == s[0..0] == "" && Escape("") == ""
  {
  }

  /** printbuf */
  class PrintBuf {
    var buf: string

    constructor ()
      ensures buf == ""
    {
      buf := "";
    }

    /** printbuf_memappend and sprintbuf */
    method Append(s: string)
      modifies this
      ensures buf == old(buf) + s
    {
      buf := buf + s;
    }

    /** json_escape_str */
    method EscapeStr(str: string)
      modifies this
      ensures buf == old(buf) + Escape(str)
    {
      hide Escape, Escaped, IsPlain;
      var pos, start := 0, 0;
      EscapeNone(str);
      while pos < |str|
        invariant start <= pos <= |str|
        invariant buf + str[start..pos] == old(buf) + Escape(str[..pos])
      {
        EscapeStep(str, pos);
        Slices(str, start, pos, buf);
        if !IsPlain(str[pos]) {
          if pos > start {
            Append(str[start..pos]);
          }
          Append(Escaped(str[pos]));
          start := pos + 1;
        }
        Together(old(buf), Escape(str[..pos]), Escaped(str[pos]));
        pos := pos + 1;
      }
      Slices(str, start, pos, buf);
      if pos > start {
        Append(str[start..pos]);
      }
    }

    /** The functions behind _to_json_string */
    method Write(v: Json, level: nat, f: Flags)
      modifies this
      ensures buf == old(buf) + Print(v, level, f)
      decreases v, 1, 0
    {
      match v
      case Null => Append("null");
      case Bool(b) => Append(if b then "true" else "false");
      case Int(n) => Append(IntText(n));
      case Double(text) => Append(text);
      case Infinity(negative) => Append(if negative then "-Infinity" else "Infinity");
      case NaN => Append("NaN");
      case Str(s) =>
        Append("\"");
        EscapeStr(s);
        Append("\"");
      case Array(_) => WriteArray(v, level, f);
      case Object(_) => WriteObject(v, level, f);
    }

    /** The white space in front of a member */
    method Lead(hadChildren: bool, level: nat, f: Flags)
      modifies this
      ensures buf == old(buf) + (if hadChildren then "," + NewLine(f) else "") + Space(f) + Indent(level, f)
    {
      if hadChildren {
        Append(",");
        Append(NewLine(f));
      }
      Append(Space(f));
      Append(Indent(level, f));
    }

    /** The end of an array or object */
    method Close(hadChildren: bool, level: nat, f: Flags, bracket: string)
      modifies this
      ensures buf == old(buf) + Closing(if hadChildren then 1 else 0, level, f, bracket)
    {
      if f.pretty {
        if hadChildren {
          Append("\n");
        }
        Append(Indent(level, f));
      }
      Append(Space(f));
      Append(bracket);
    }

    method WriteItem(v: Json, i: nat, level: nat, f: Flags)
      requires v.Array? && i < |v.items|
      modifies this
      ensures buf == old(buf) + Item(v, i, level, f)
      decreases v, 0, 0
    {
      hide Print, Space, Indent, NewLine;
      Lead(i > 0, level, f);
      Write(v.items[i], level, f);
    }

    /** json_object_array_to_json_string */
    method WriteArray(v: Json, level: nat, f: Flags)
      requires v.Array?
      modifies this
      ensures buf == old(buf) + Print(v, level, f)
      decreases v, 0, 1
    {
      hide Print, Closing, Item, ItemsTail;
      Append("[" + NewLine(f));
      ghost var start := buf;
      ArrayText(v, level, f);
      var ii := 0;
      while ii < |v.items|
        invariant ii <= |v.items|
        invariant buf + ItemsTail(v, ii, level, f) == start + ItemsTail(v, 0, level, f)
      {
        ItemsOn(v, ii, level, f);
        Together(buf, Item(v, ii, level + 1, f), ItemsTail(v, ii + 1, level, f));
        WriteItem(v, ii, level + 1, f);
        ii := ii + 1;
      }
      Close(ii > 0, level, f, "]");
      Together(old(buf), "[" + NewLine(f), ItemsTail(v, 0, level, f));
    }

    method WriteField(v: Json, i: nat, level: nat, f: Flags)
      requires v.Object? && i < |v.fields|
      modifies this
      ensures buf == old(buf) + Member(v, i, level, f)
      decreases v, 0, 0
    {
      hide Print, Space, Indent, NewLine, Escape;
      Lead(i > 0, level, f);
      Append("\"");
      EscapeStr(CString(v.fields[i].key));
      Append("\":");
      Append(Space(f));
      Write(v.fields[i].value, level, f);
    }

    /** json_object_object_to_json_string */
    method WriteObject(v: Json, level: nat, f: Flags)
      requires v.Object?
      modifies this
      ensures buf == old(buf) + Print(v, level, f)
      decreases v, 0, 1
    {
      hide Print, Closing, Member, FieldsTail;
      Append("{" + NewLine(f));
      ghost var start := buf;
      ObjectText(v, level, f);
      var i := 0;
      while i < |v.fields|
        invariant i <= |v.fields|
        invariant buf + FieldsTail(v, i, level, f) == start + FieldsTail(v, 0, level, f)
      {
        FieldsOn(v, i, level, f);
        Together(buf, Member(v, i, level + 1, f), FieldsTail(v, i + 1, level, f));
        WriteField(v, i, level + 1, f);
        i := i + 1;
      }
      Close(i > 0, level, f, "}");
      Together(old(buf), "{" + NewLine(f), FieldsTail(v, 0, level, f));
    }
  }

  lemma Together(a: string, b: string, c: string)
    ensures a + b + c == a + (b + c)
  {
  }

  /** One item, and what is written in front of it */
  ghost function Item(v: Json, i: nat, level: nat, f: Flags): string
    requires v.Array? && i < |v.items|
  {
    (if i > 0 then "," + NewLine(f) else "") + Space(f) + Indent(level, f) + Print(v.items[i], level, f)
  }

  ghost function Member(v: Json, i: nat, level: nat, f: Flags): string
    requires v.Object? && i < |v.fields|
  {
    (if i > 0 then "," + NewLine(f) else "") + Space(f) + Indent(level, f) + "\"" + Escape(CString(v.fields[i].key))
      + "\":" + Space(f)
    + Print(v.fields[i].value, level, f)
  }

  /** What is still to be written when i items have been, with the comma in front */
  ghost function ItemsTail(v: Json, i: nat, level: nat, f: Flags): string
    requires v.Array? && i <= |v.items|
  {
    (if 0 < i < |v.items| then "," + NewLine(f) else "") + PrintItems(v, i, level, f)
  }

  ghost function FieldsTail(v: Json, i: nat, level: nat, f: Flags): string
    requires v.Object? && i <= |v.fields|
  {
    (if 0 < i < |v.fields| then "," + NewLine(f) else "") + PrintFields(v, i, level, f)
  }

  lemma ItemsOn(v: Json, i: nat, level: nat, f: Flags)
    requires v.Array? && i < |v.items|
    ensures ItemsTail(v, i, level, f) == Item(v, i, level + 1, f) + ItemsTail(v, i + 1, level, f)
  {
    hide Print, Closing, Space, Indent, NewLine;
  }

  lemma FieldsOn(v: Json, i: nat, level: nat, f: Flags)
    requires v.Object? && i < |v.fields|
    ensures FieldsTail(v, i, level, f) == Member(v, i, level + 1, f) + FieldsTail(v, i + 1, level, f)
  {
    hide Print, Closing, Space, Indent, NewLine, Escape;
    var comma := if i > 0 then "," + NewLine(f) else "";
    var key, value := Escape(CString(v.fields[i].key)), Print(v.fields[i].value, level + 1, f);
    var tail := (if i + 1 < |v.fields| then "," + NewLine(f) else "") + PrintFields(v, i + 1, level, f);
    FieldShape(comma, Space(f), Indent(level + 1, f), key, value, tail);
    assert FieldsTail(v, i + 1, level, f) == tail;
    assert PrintFields(v, i, level, f)
      == Space(f) + Indent(level + 1, f) + Quote(CString(v.fields[i].key)) + ":" + Space(f) + value
         + (if i + 1 < |v.fields| then "," + NewLine(f) else "") + PrintFields(v, i + 1, level, f);
  }

  lemma FieldShape(comma: string, space: string, indent: string, key: string, value: string, tail: string)
    ensures comma + (space + indent + ("\"" + key + "\"") + ":" + space + value + tail)
         == (comma + space + indent + "\"" + key + "\":" + space + value) + tail
  {
  }

  lemma ArrayText(v: Json, level: nat, f: Flags)
    requires v.Array?
    ensures Print(v, level, f) == "[" + NewLine(f) + ItemsTail(v, 0, level, f)
    ensures ItemsTail(v, |v.items|, level, f) == Closing(if |v.items| > 0 then 1 else 0, level, f, "]")
  {
  }

  lemma ObjectText(v: Json, level: nat, f: Flags)
    requires v.Object?
    ensures Print(v, level, f) == "{" + NewLine(f) + FieldsTail(v, 0, level, f)
    ensures FieldsTail(v, |v.fields|, level, f) == Closing(if |v.fields| > 0 then 1 else 0, level, f, "}")
  {
  }
}
