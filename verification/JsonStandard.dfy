/** What the serializer of json-c writes is a JSON text of RFC 8259, and it stands for the value. */
module JsonStandard {
  import opened JsonValue
  import opened JsonPrinter
  import opened JsonRoundTrip
  import G = JsonGrammar
  import U = JsonUnicode
  import Utf8

  /** The text of a double is a number of the grammar. */
  ghost predicate IsNumeral(text: string) {
    exists n: G.Numeral :: G.NumeralOk(n) && (n.frac != "" || n.exp != "") && G.NumeralText(n) == text
  }

  /** JSON has no text for NaN and the infinities. */
  ghost predicate Standard(v: Json)
    decreases v
  {
    match v
    case Double(text) => IsNumeral(text)
    case Infinity(_) => false
    case NaN => false
    case Array(items) => forall i :: 0 <= i < |items| ==> Standard(items[i])
    case Object(fields) => forall i :: 0 <= i < |fields| ==> Standard(fields[i].value)
    case _ => true
  }

  // ---------- strings

  lemma CharPiece(c: char) returns (p: G.Piece)
    ensures G.PieceOk(p) && !p.Pair? && G.PieceText(p) == Escaped(c) && G.PieceMeans(p) == [c]
  {
    if ShortEscape(c).Some? {
      p := G.Short(ShortEscape(c).value);
    } else if c < ' ' {
      p := LongPiece(c);
    } else {
      p := G.Plain(c);
    }
  }

  lemma LongPiece(c: char) returns (p: G.Piece)
    requires c < ' '
    ensures G.PieceOk(p) && !p.Pair? && G.PieceText(p) == UnicodeEscape(c) && G.PieceMeans(p) == [c]
  {
    hide Utf8.Stands, U.HexValue;
    OneByte(c);
    ControlCode(c);
    var d := ['0', '0', HexChar(c as int / 16), HexChar(c as int % 16)];
    assert "\\u" + d == UnicodeEscape(c);
    p := G.Code(d, [c]);
  }

  /** json_escape_str keeps to section 7: each character becomes an unescaped char or a valid escape, which stands for
      it. */
  lemma {:induction false} EscapedIsString(s: string) returns (ps: seq<G.Piece>)
    ensures G.PiecesOk(ps) && G.PiecesText(ps) == Escape(s) && G.PiecesMean(ps) == s && forall p :: p in ps ==> !p.Pair?
    decreases |s|
  {
    hide Escaped, G.PieceOk, G.PieceText, G.PieceMeans;
    if s == "" {
      ps := [];
    } else {
      var p := CharPiece(s[0]);
      var rest := EscapedIsString(s[1..]);
      ps := [p] + rest;
      assert ps[1..] == rest && s == [s[0]] + s[1..];
    }
  }

  // ---------- numbers

  lemma {:induction false} DigitsAreNumeral(n: nat)
    ensures G.AreDigits(Digits(n)) && G.Decimal(Digits(n)) == n && (Digits(n)[0] == '0' ==> Digits(n) == "0")
  {
    var d := Digits(n);
    if n < 10 {
      assert d[..0] == "";
    } else {
      DigitsAreNumeral(n / 10);
      assert d[..|d|-1] == Digits(n / 10);
      Decimals(Digits(n / 10), n % 10);
    }
  }

  lemma Decimals(s: string, k: nat)
    requires G.AreDigits(s) && k < 10
    ensures G.AreDigits(s + ['0' + k as char]) && G.Decimal(s + ['0' + k as char]) == 10 * G.Decimal(s) + k
  {
    var c := '0' + k as char;
    assert (s + [c])[..|s|] == s && c in "0123456789";
  }

  lemma IntIsNumber(n: int) returns (x: G.Text)
    requires INT64_MIN <= n <= INT64_MAX
    ensures G.IsText(x) && G.Written(x) == IntText(n) && G.Value(x) == Int(n)
  {
    hide Digits, G.Decimal;
    var d: nat := if n < 0 then -n else n;
    DigitsAreNumeral(d);
    var m := G.Numeral(n < 0, Digits(d), "", "");
    assert G.NumeralText(m) == IntText(n);
    x := G.Number(m);
  }

  lemma DoubleIsNumber(text: string) returns (x: G.Text)
    requires IsNumeral(text)
    ensures G.IsText(x) && G.Written(x) == text && G.Value(x) == Double(text)
  {
    hide G.NumeralOk;
    var n: G.Numeral :| G.NumeralOk(n) && (n.frac != "" || n.exp != "") && G.NumeralText(n) == text;
    x := G.Number(n);
  }

  // ---------- values

  /** Only what can stand in a text of JSON is written, and it says the value. */
  lemma {:induction false} PrintedIsText(v: Json, level: nat, f: Flags) returns (x: G.Text)
    requires Printable(v) && Standard(v)
    ensures G.IsText(x) && G.Written(x) == Print(v, level, f) && G.Value(x) == v
    decreases v, 2, 0
  {
    hide PrintItems, PrintFields, IntText, IsNumeral;
    match v
    case Null => x := G.Word("null");
    case Bool(b) => x := G.Word(if b then "true" else "false");
    case Int(n) => x := IntIsNumber(n);
    case Double(text) => x := DoubleIsNumber(text);
    case Str(s) =>
      var ps := EscapedIsString(s);
      x := G.Quoted(ps);
    case Array(items) => x := ArrayIsText(v, level, f);
    case Object(fields) => x := ObjectIsText(v, level, f);
  }

  lemma WhiteIsWs(level: nat, f: Flags)
    ensures G.IsWs(NewLine(f)) && G.IsWs(NewLine(f) + Space(f) + Indent(level, f))
      && G.IsWs(NewLine(f) + Indent(level, f) + Space(f)) && G.IsWs(Space(f))
  {
  }

  lemma {:induction false} ArrayIsText(v: Json, level: nat, f: Flags) returns (x: G.Text)
    requires v.Array? && Printable(v) && Standard(v)
    ensures G.IsText(x) && G.Written(x) == Print(v, level, f) && G.Value(x) == v
    decreases v, 1, 0
  {
    WhiteIsWs(level, f);
    hide NewLine, Indent, Space, G.IsWs, Printable, Standard, PrintItems;
    if v.items == [] {
      var white := NewLine(f) + Indent(level, f) + Space(f);
      EmptyText(v, level, f);
      x := G.Nothing(white, false);
    } else {
      var items := ItemsAreText(v, 0, level, f);
      x := G.Items(items);
      assert v.items[0..] == v.items;
      assert Print(v, level, f) == "[" + (NewLine(f) + PrintItems(v, 0, level, f));
    }
  }

  lemma EmptyText(v: Json, level: nat, f: Flags)
    ensures v == Array([]) ==> Print(v, level, f) == "[" + (NewLine(f) + Indent(level, f) + Space(f)) + "]"
    ensures v == Object([]) ==> Print(v, level, f) == "{" + (NewLine(f) + Indent(level, f) + Space(f)) + "}"
  {
    hide NewLine, Indent, Space;
  }

  ghost predicate AreItems(items: seq<G.Item>) {
    items != [] && forall i :: 0 <= i < |items| ==> G.ItemWs(items[i]) && G.IsText(items[i].value)
  }

  /** The items from the i-th on */
  lemma {:induction false} ItemsAreText(v: Json, i: nat, level: nat, f: Flags) returns (items: seq<G.Item>)
    requires v.Array? && i < |v.items| && Printable(v) && Standard(v)
    ensures AreItems(items) && G.ItemValues(items) == v.items[i..]
    ensures G.WrittenItems(items) + "]" == NewLine(f) + PrintItems(v, i, level, f)
    decreases v, 0, |v.items| - i
  {
    WhiteIsWs(level + 1, f);
    WhiteIsWs(level, f);
    hide NewLine, Indent, Space, G.IsWs, G.IsText, G.Written, G.Value, Print, PrintItems, G.WrittenItems, G.ItemValues,
      AreItems;
    var x := PrintedIsText(v.items[i], level + 1, f);
    var before := NewLine(f) + Space(f) + Indent(level + 1, f);
    if i + 1 == |v.items| {
      var item := G.Item(before, x, NewLine(f) + Indent(level, f) + Space(f));
      items := [item];
      OneItem(item);
      LastText(v, i, level, f);
      assert v.items[i..] == [v.items[i]];
    } else {
      var more := ItemsAreText(v, i + 1, level, f);
      var item := G.Item(before, x, "");
      items := [item] + more;
      MoreItems(item, more);
      assert v.items[i..] == [v.items[i]] + v.items[i+1..];
      NextText(v, i, level, f);
    }
  }

  lemma OneItem(item: G.Item)
    requires G.ItemWs(item) && G.IsText(item.value)
    ensures AreItems([item]) && G.ItemValues([item]) == [G.Value(item.value)]
    ensures G.WrittenItems([item]) == item.before + G.Written(item.value) + item.after
  {
    hide G.ItemWs, G.IsText, G.Value, G.Written;
    assert [item][1..] == [];
  }

  lemma MoreItems(item: G.Item, more: seq<G.Item>)
    requires G.IsWs(item.before) && item.after == "" && G.IsText(item.value) && AreItems(more)
    ensures AreItems([item] + more) && G.ItemValues([item] + more) == [G.Value(item.value)] + G.ItemValues(more)
    ensures G.WrittenItems([item] + more) + "]"
         == item.before + G.Written(item.value) + ("," + (G.WrittenItems(more) + "]"))
  {
    hide G.IsText, G.Value, G.Written;
    var items := [item] + more;
    assert items[1..] == more && items[0] == item;
    forall i | 0 <= i < |items| ensures G.ItemWs(items[i]) && G.IsText(items[i].value) {
      if i > 0 { assert items[i] == more[i-1]; }
    }
  }

  lemma LastText(v: Json, i: nat, level: nat, f: Flags)
    requires v.Array? && i + 1 == |v.items|
    ensures NewLine(f) + PrintItems(v, i, level, f)
         == NewLine(f) + Space(f) + Indent(level + 1, f) + Print(v.items[i], level + 1, f)
              + (NewLine(f) + Indent(level, f) + Space(f)) + "]"
  {
    hide Print, NewLine, Space, Indent;
    assert PrintItems(v, i + 1, level, f) == NewLine(f) + Indent(level, f) + Space(f) + "]";
  }

  lemma NextText(v: Json, i: nat, level: nat, f: Flags)
    requires v.Array? && i + 1 < |v.items|
    ensures NewLine(f) + PrintItems(v, i, level, f)
         == NewLine(f) + Space(f) + Indent(level + 1, f) + Print(v.items[i], level + 1, f)
              + ("," + (NewLine(f) + PrintItems(v, i + 1, level, f)))
  {
    hide Print, NewLine, Space, Indent;
  }

  // ---------- objects

  lemma {:induction false} ObjectIsText(v: Json, level: nat, f: Flags) returns (x: G.Text)
    requires v.Object? && Printable(v) && Standard(v)
    ensures G.IsText(x) && G.Written(x) == Print(v, level, f) && G.Value(x) == v
    decreases v, 1, 0
  {
    WhiteIsWs(level, f);
    hide NewLine, Indent, Space, G.IsWs, Printable, Standard, PrintFields;
    if v.fields == [] {
      var white := NewLine(f) + Indent(level, f) + Space(f);
      EmptyText(v, level, f);
      x := G.Nothing(white, true);
    } else {
      var members := FieldsAreText(v, 0, level, f);
      x := G.Members(members);
      assert v.fields[..0] == [];
      assert Print(v, level, f) == "{" + (NewLine(f) + PrintFields(v, 0, level, f));
    }
  }

  ghost predicate IsMember(m: G.Member) {
    G.IsWs(m.before) && G.PiecesOk(m.key) && G.IsWs(m.after) && G.ItemWs(m.item) && G.IsText(m.item.value)
  }

  ghost predicate AreMembers(members: seq<G.Member>) {
    members != [] && forall i :: 0 <= i < |members| ==> IsMember(members[i])
  }

  lemma FieldOk(v: Json, i: nat)
    requires v.Object? && i < |v.fields| && Printable(v) && Standard(v)
    ensures Printable(v.fields[i].value) && Standard(v.fields[i].value) && CString(v.fields[i].key) == v.fields[i].key
    ensures PutField(v.fields[..i], v.fields[i].key, v.fields[i].value) == v.fields[..i+1]
  {
    hide PutField, CString;
    WholeString(v.fields[i].key);
    PutNewField(v.fields[..i], v.fields[i].key, v.fields[i].value);
    assert v.fields[..i] + [Field(v.fields[i].key, v.fields[i].value)] == v.fields[..i+1];
  }

  /** The fields from the i-th on */
  lemma {:induction false} FieldsAreText(v: Json, i: nat, level: nat, f: Flags) returns (members: seq<G.Member>)
    requires v.Object? && i < |v.fields| && Printable(v) && Standard(v)
    ensures AreMembers(members) && G.MemberValues(v.fields[..i], members) == v.fields
    ensures G.WrittenMembers(members) + "}" == NewLine(f) + PrintFields(v, i, level, f)
    decreases v, 0, |v.fields| - i
  {
    WhiteIsWs(level + 1, f);
    WhiteIsWs(level, f);
    hide NewLine, Indent, Space, G.IsWs, G.IsText, G.Written, G.Value, Print, PrintFields, Printable, Standard, CString,
      PutField, Escape, G.PiecesText, G.PiecesMean, G.PiecesOk, AreMembers, G.MemberValues, G.WrittenMembers;
    FieldOk(v, i);
    var g := v.fields[i];
    var x := PrintedIsText(g.value, level + 1, f);
    var ps := EscapedIsString(g.key);
    var before := NewLine(f) + Space(f) + Indent(level + 1, f);
    NoWhite();
    if i + 1 == |v.fields| {
      var m := G.Member(before, ps, "", G.Item(Space(f), x, NewLine(f) + Indent(level, f) + Space(f)));
      members := [m];
      OneMember(v.fields[..i], m);
      LastFieldText(v, i, level, f);
      assert v.fields[..i+1] == v.fields;
    } else {
      var more := FieldsAreText(v, i + 1, level, f);
      var m := G.Member(before, ps, "", G.Item(Space(f), x, ""));
      members := [m] + more;
      MoreMembers(v.fields[..i], m, more);
      NextFieldText(v, i, level, f);
    }
  }

  lemma NoWhite()
    ensures G.IsWs("")
  {
  }

  lemma OneMember(fs: seq<Field>, m: G.Member)
    requires IsMember(m) && m.after == ""
    ensures AreMembers([m])
    ensures G.MemberValues(fs, [m]) == PutField(fs, CString(G.PiecesMean(m.key)), G.Value(m.item.value))
    ensures G.WrittenMembers([m])
         == m.before + G.StringText(m.key) + ":" + (m.item.before + G.Written(m.item.value) + m.item.after)
  {
    hide G.IsText, G.Value, G.Written, G.IsWs, G.ItemWs, G.PiecesOk, G.PiecesMean, G.StringText, CString, PutField;
    assert [m][1..] == [];
    NoAfter(m);
  }

  lemma NoAfter(m: G.Member)
    requires m.after == ""
    ensures G.WrittenMember(m) == m.before + G.StringText(m.key) + ":" + G.WrittenItem(m.item)
    ensures m.item.after == "" ==> G.WrittenItem(m.item) == m.item.before + G.Written(m.item.value)
  {
    hide G.StringText, G.Written;
    var s := m.before + G.StringText(m.key);
    assert s + "" == s;
  }

  lemma MoreMembers(fs: seq<Field>, m: G.Member, more: seq<G.Member>)
    requires IsMember(m) && m.after == "" && m.item.after == "" && AreMembers(more)
    ensures AreMembers([m] + more)
    ensures G.MemberValues(fs, [m] + more)
         == G.MemberValues(PutField(fs, CString(G.PiecesMean(m.key)), G.Value(m.item.value)), more)
    ensures G.WrittenMembers([m] + more) + "}"
         == m.before + G.StringText(m.key) + ":" + (m.item.before + G.Written(m.item.value))
              + ("," + (G.WrittenMembers(more) + "}"))
  {
    hide G.IsText, G.Value, G.Written, G.IsWs, G.ItemWs, G.PiecesOk, G.PiecesMean, G.StringText, CString, PutField;
    NoAfter(m);
    var members := [m] + more;
    assert members[1..] == more && members[0] == m;
    forall i | 0 <= i < |members| ensures IsMember(members[i]) {
      if i > 0 { assert members[i] == more[i-1]; }
    }
  }

  lemma LastFieldText(v: Json, i: nat, level: nat, f: Flags)
    requires v.Object? && i + 1 == |v.fields|
    ensures NewLine(f) + PrintFields(v, i, level, f)
         == NewLine(f) + Space(f) + Indent(level + 1, f) + Quote(CString(v.fields[i].key)) + ":"
              + (Space(f) + Print(v.fields[i].value, level + 1, f) + (NewLine(f) + Indent(level, f) + Space(f))) + "}"
  {
    hide Print, NewLine, Space, Indent, Quote, CString;
    assert PrintFields(v, i + 1, level, f) == NewLine(f) + Indent(level, f) + Space(f) + "}";
  }

  lemma NextFieldText(v: Json, i: nat, level: nat, f: Flags)
    requires v.Object? && i + 1 < |v.fields|
    ensures NewLine(f) + PrintFields(v, i, level, f)
         == NewLine(f) + Space(f) + Indent(level + 1, f) + Quote(CString(v.fields[i].key)) + ":"
              + (Space(f) + Print(v.fields[i].value, level + 1, f))
              + ("," + (NewLine(f) + PrintFields(v, i + 1, level, f)))
  {
    hide Print, NewLine, Space, Indent, Quote, CString;
  }
}
