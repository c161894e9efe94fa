/** The text that libubox/blobmsg_json.c writes for a value, and that json-c reads it back. */
module BlobmsgText {
  import opened JsonValue
  import opened JsonTokener
  import opened JsonPrinter
  import opened JsonLevels
  import opened JsonRoundTrip
  import opened BlobmsgFormat
  import G = JsonGrammar
  import Standard = JsonStandard

  /** What blobmsg_format_string writes for a character */
  function CharText(c: char): string {
    if c == 8 as char then "\\b"
    else if c == '\n' then "\\n"
    else if c == '\t' then "\\t"
    else if c == '\r' then "\\r"
    else if c == '"' || c == '\\' then ['\\', c]
    else if c < ' ' then UnicodeEscape(c)
    else [c]
  }

  function CharsText(s: string): string {
    if s == "" then "" else CharText(s[0]) + CharsText(s[1..])
  }

  function StringText(s: string): string {
    "\"" + CharsText(s) + "\""
  }

  lemma CharIsPiece(c: char) returns (p: G.Piece)
    ensures G.PieceOk(p) && !p.Pair? && G.PieceText(p) == CharText(c) && G.PieceMeans(p) == [c]
  {
    if c == '/' {
      p := G.Plain(c);
    } else if c == 12 as char {
      p := Standard.LongPiece(c);
    } else {
      p := Standard.CharPiece(c);
    }
  }

  /** blobmsg_format_string keeps to section 7 of RFC 8259, and what it writes stands for the string. */
  lemma {:induction false} CharsAreString(s: string) returns (ps: seq<G.Piece>)
    ensures G.PiecesOk(ps) && G.PiecesText(ps) == CharsText(s) && G.PiecesMean(ps) == s
      && forall p :: p in ps ==> !p.Pair?
    decreases |s|
  {
    hide CharText, G.PieceOk, G.PieceText, G.PieceMeans;
    if s == "" {
      ps := [];
    } else {
      var p := CharIsPiece(s[0]);
      var rest := CharsAreString(s[1..]);
      ps := [p] + rest;
      assert ps[1..] == rest && s == [s[0]] + s[1..];
    }
  }

  function Tabs(n: nat): (r: string)
    ensures |r| == n && forall c :: c in r ==> c == '\t'
  {
    if n == 0 then "" else "\t" + Tabs(n - 1)
  }

  /** add_separator: a new line, and no more than 16 tabs */
  function Separator(level: nat, indent: bool): string {
    if indent then "\n" + Tabs(if level > 16 then 16 else level) else ""
  }

  function Colon(indent: bool): string {
    if indent then ": " else ":"
  }

  /** The text of a value, its strings cut at a NUL and its numbers cut to 32 bits */
  function Text(v: Json, level: nat, indent: bool): string
    requires Convertible(v)
    decreases v, 1, 0
  {
    match v
    case Null => "null"
    case Bool(b) => if b then "true" else "false"
    case Int(n) => IntText(ToInt32(n))
    case Str(s) => StringText(CString(s))
    case Array(items) =>
      "[" + Separator(level + 1, indent) + ItemsText(v, 0, level + 1, indent) + Separator(level, indent) + "]"
    case Object(fields) =>
      "{" + Separator(level + 1, indent) + FieldsText(v, 0, level + 1, indent) + Separator(level, indent) + "}"
  }

  function Comma(i: nat, level: nat, indent: bool): string {
    if i > 0 then "," + Separator(level, indent) else ""
  }

  function ItemsText(v: Json, i: nat, level: nat, indent: bool): string
    requires v.Array? && Convertible(v) && i <= |v.items|
    decreases v, 0, |v.items| - i
  {
    if i == |v.items| then ""
    else Comma(i, level, indent) + Text(v.items[i], level, indent) + ItemsText(v, i + 1, level, indent)
  }

  function FieldsText(v: Json, i: nat, level: nat, indent: bool): string
    requires v.Object? && Convertible(v) && i <= |v.fields|
    decreases v, 0, |v.fields| - i
  {
    if i == |v.fields| then ""
    else Comma(i, level, indent) + FieldText(v, i, level, indent) + FieldsText(v, i + 1, level, indent)
  }

  /** A key, unless it is empty, and its value */
  function FieldText(v: Json, i: nat, level: nat, indent: bool): string
    requires v.Object? && Convertible(v) && i < |v.fields|
    decreases v, 0, 0
  {
    var key := CString(v.fields[i].key);
    (if key != "" then StringText(key) + Colon(indent) else "") + Text(v.fields[i].value, level, indent)
  }

  /** What comes back: strings end before a NUL, and numbers have 32 bits. */
  function Narrow(v: Json): Json
    decreases v
  {
    match v
    case Int(n) => Int(ToInt32(n))
    case Str(s) => Str(CString(s))
    case Array(items) => Array(seq(|items|, i requires 0 <= i < |items| => Narrow(items[i])))
    case Object(fields) =>
      Object(seq(|fields|, i requires 0 <= i < |fields| => Field(fields[i].key, Narrow(fields[i].value))))
    case _ => v
  }

  /** Keys are C strings, not empty and all different. */
  predicate Keyed(v: Json)
    decreases v
  {
    match v
    case Array(items) => forall i :: 0 <= i < |items| ==> Keyed(items[i])
    case Object(fields) =>
      && (forall i :: 0 <= i < |fields| ==> Keyed(fields[i].value) && fields[i].key != "" && NUL !in fields[i].key)
      && (forall i, j :: 0 <= i < j < |fields| ==> fields[i].key != fields[j].key)
    case _ => true
  }

  /** A value that fits in 32 bits and C strings comes back as it was. */
  lemma {:induction false} NarrowSame(v: Json)
    requires Small(v)
    ensures Narrow(v) == v
    decreases v
  {
    match v
    case Array(items) =>
      forall i | 0 <= i < |items| ensures Narrow(items[i]) == items[i] { NarrowSame(items[i]); }
    case Object(fields) =>
      forall i | 0 <= i < |fields| ensures Narrow(fields[i].value) == fields[i].value { NarrowSame(fields[i].value); }
    case _ =>
  }

  predicate Small(v: Json)
    decreases v
  {
    match v
    case Int(n) => -0x8000_0000 <= n <= 0x7FFF_FFFF
    case Str(s) => NUL !in s
    case Array(items) => forall i :: 0 <= i < |items| ==> Small(items[i])
    case Object(fields) => forall i :: 0 <= i < |fields| ==> Small(fields[i].value)
    case _ => true
  }

  // ---------- the tokener on the text

  lemma CharTextBack(t: Tok, c: char, rest: string) returns (t': Tok)
    requires InQuotes(t)
    ensures ReadOn(t, [c], t') && Run(t, 0, CharText(c) + rest) == More(Run(t', 0, rest), |CharText(c)|)
  {
    hide Run;
    if c == 8 as char || c == '\n' || c == '\t' || c == '\r' || c == '"' || c == '\\' {
      t' := ShortBack(t, c, rest);
    } else if c < ' ' {
      t' := UnicodeBack(t, c, rest);
    } else {
      PlainBack(t, c, rest);
      t' := t.(pb := t.pb + [c]);
    }
  }

  lemma {:induction false} CharsBack(t: Tok, s: string, rest: string) returns (t': Tok)
    requires InQuotes(t)
    ensures ReadOn(t, s, t') && Run(t, 0, CharsText(s) + rest) == More(Run(t', 0, rest), |CharsText(s)|)
    decreases |s|
  {
    hide Run, CharText;
    if s == "" {
      t' := t;
      assert CharsText(s) + rest == rest;
    } else {
      assert CharsText(s) + rest == CharText(s[0]) + (CharsText(s[1..]) + rest);
      var u := CharTextBack(t, s[0], CharsText(s[1..]) + rest);
      t' := CharsBack(u, s[1..], rest);
      assert t.pb + s == t.pb + [s[0]] + s[1..];
    }
  }

  lemma QuotedText(s: string, rest: string)
    ensures StringText(s) + rest == ['"'] + (CharsText(s) + ("\"" + rest)) && |StringText(s)| == |CharsText(s)| + 2
  {
    hide CharsText;
  }

  lemma StringTextBack(t: Tok, s: string, rest: string) returns (t': Tok)
    requires Fresh(t)
    ensures Has(t, Str(s), t') && Run(t, 0, StringText(s) + rest) == More(Run(t', 0, rest), |StringText(s)|)
  {
    hide Run, Fresh, Has, InQuotes, ReadOn, IsStart, StringText, CharsText;
    QuotedText(s, rest);
    var u := StringStarts(t, CharsText(s) + ("\"" + rest));
    var u' := CharsBack(u, s, "\"" + rest);
    t' := StringEnds(t, u, u', s, rest);
  }

  lemma KeyTextBack(t: Tok, key: string, rest: string) returns (t': Tok)
    requires WaitsForKey(t) && NUL !in key
    ensures SameLevel(t, t') && Top(t') == Srec(Eatws, FieldEnd, Top(t).current, Some(key))
    ensures Run(t, 0, StringText(key) + rest) == More(Run(t', 0, rest), |StringText(key)|)
  {
    hide Run, Switch, Wf, CharsText, StringText;
    KeyOpens(t, CharsText(key) + ("\"" + rest));
    var u := Go(t, FieldName).(pb := "", quote := '"');
    QuotedText(key, rest);
    var u' := CharsBack(u, key, "\"" + rest);
    assert u'.pb == key;
    WholeString(key);
    t' := KeyClosed(t, u', key, rest);
  }

  lemma SeparatorIsWhite(level: nat, indent: bool)
    ensures forall c :: c in Separator(level, indent) ==> IsSpace(c)
    ensures Separator(level, indent) != "" ==> Separator(level, indent)[0] == '\n'
  {
  }

  lemma TextStarts(v: Json, level: nat, indent: bool)
    requires Convertible(v)
    ensures var x := Text(v, level, indent); x != "" && !IsSpace(x[0]) && x[0] != '/' && x[0] != ']' && x[0] != NUL
  {
    if v.Int? { IntTextBack(ToInt32(v.n)); }
  }

  /** The text of a value, and what comes behind it, is read as that value and what comes behind it. */
  lemma {:induction false} TextBack(t: Tok, v: Json, level: nat, indent: bool, rest: string) returns (t': Tok)
    requires Fresh(t) && Convertible(v) && Keyed(v) && Nests(v, |t.stack| - t.depth) && rest != "" && Ends(rest[0])
    ensures Has(t, Narrow(v), t')
      && Run(t, 0, Text(v, level, indent) + rest) == More(Run(t', 0, rest), |Text(v, level, indent)|)
    decreases v, 2, 0
  {
    hide Run, Fresh, Has;
    match v
    case Null => t' := LiteralBack(t, "null", v, rest);
    case Bool(b) => t' := LiteralBack(t, if b then "true" else "false", v, rest);
    case Int(n) =>
      IntTextBack(ToInt32(n));
      t' := NumberBack(t, IntText(ToInt32(n)), Narrow(v), rest);
    case Str(s) => t' := StringTextBack(t, CString(s), rest);
    case Array(_) => t' := ArrayTextBack(t, v, level, indent, rest);
    case Object(_) => t' := ObjectTextBack(t, v, level, indent, rest);
  }

  lemma {:induction false} ArrayTextBack(t: Tok, v: Json, level: nat, indent: bool, rest: string) returns (t': Tok)
    requires Fresh(t) && v.Array? && Convertible(v) && Keyed(v) && Nests(v, |t.stack| - t.depth) && rest != ""
    ensures Has(t, Narrow(v), t')
      && Run(t, 0, Text(v, level, indent) + rest) == More(Run(t', 0, rest), |Text(v, level, indent)|)
    decreases v, 1, |v.items| + 2
  {
    hide Run, Wf, Switch, Separator, ItemsText, Text, Narrow, Convertible, Keyed, Nests, Fresh, Has, SameLevel,
      WaitsForItem, AtRest, Process, IsSpace;
    var tail := Separator(level, indent) + ("]" + rest);
    var all := ItemsText(v, 0, level + 1, indent) + tail;
    NarrowKind(v);
    OpenText(v, level, indent, rest);
    var u := ArrayOpens(t, level + 1, indent, all);
    NoText(v, level + 1, indent);
    if v.items == [] {
      assert all == tail;
      t' := EmptyEnds(u, v, level, indent, rest);
    } else {
      assert Narrow(v).items[..0] == [];
      MoreItems(v, 0, level + 1, indent, tail);
      t' := ItemsTextBack(u, v, 0, level, indent, rest);
    }
    SameHas(t, u, Narrow(v), t');
  }

  lemma ArrayOpens(t: Tok, level: nat, indent: bool, all: string) returns (u: Tok)
    requires Fresh(t)
    ensures SameLevel(t, u) && WaitsForItem(u) && Top(u) == Srec(Eatws, ArrayStart, Array([]), None)
    ensures u.depth == t.depth && |u.stack| == |t.stack| && AtRest(u) && u.err == Success && u.hi == 0
    ensures var open := Separator(level, indent); Run(t, 0, ['['] + (open + all)) == More(Run(u, 0, all), 1 + |open|)
  {
    hide Run, Wf, Fresh, Separator;
    SeparatorIsWhite(level, indent);
    u := BracketOpens(t, Separator(level, indent) + all);
    SkipWhite(u, Separator(level, indent), all);
  }

  lemma ObjectOpens(t: Tok, level: nat, indent: bool, all: string) returns (u: Tok)
    requires Fresh(t)
    ensures SameLevel(t, u) && WaitsForKey(u) && Top(u) == Srec(Eatws, FieldStart, Object([]), None)
    ensures u.depth == t.depth && |u.stack| == |t.stack| && AtRest(u) && u.err == Success && u.hi == 0
    ensures var open := Separator(level, indent); Run(t, 0, ['{'] + (open + all)) == More(Run(u, 0, all), 1 + |open|)
  {
    hide Run, Wf, Fresh, Separator;
    SeparatorIsWhite(level, indent);
    u := BraceOpens(t, Separator(level, indent) + all);
    SkipWhite(u, Separator(level, indent), all);
  }

  /** The text of an array or object begins with a bracket and a separator. */
  lemma OpenText(v: Json, level: nat, indent: bool, rest: string)
    requires Convertible(v) && (v.Array? || v.Object?)
    ensures var all := if v.Array? then ItemsText(v, 0, level + 1, indent) else FieldsText(v, 0, level + 1, indent);
      var bracket := if v.Array? then "]" else "}";
      Text(v, level, indent) + rest
        == [if v.Array? then '[' else '{']
             + (Separator(level + 1, indent) + (all + (Separator(level, indent) + (bracket + rest))))
  {
    hide Separator, ItemsText, FieldsText;
  }

  lemma NoText(v: Json, level: nat, indent: bool)
    requires Convertible(v)
    ensures v == Array([]) ==> ItemsText(v, 0, level, indent) == ""
    ensures v == Object([]) ==> FieldsText(v, 0, level, indent) == ""
    ensures v == Array([]) || v == Object([]) ==> Narrow(v) == v
  {
  }

  /** The end of an empty array or object */
  lemma EmptyEnds(t: Tok, v: Json, level: nat, indent: bool, rest: string) returns (t': Tok)
    requires AtRest(t) && t.err == Success && t.hi == 0
    requires (v == Array([]) && Top(t) == Srec(Eatws, ArrayStart, v, None))
      || (v == Object([]) && Top(t) == Srec(Eatws, FieldStart, v, None))
    ensures var white, bracket := Separator(level, indent), if v.Array? then "]" else "}";
      Has(t, v, t') && Run(t, 0, white + (bracket + rest)) == More(Run(t', 0, rest), |white| + 1)
  {
    hide Run, Wf, Separator, AtRest;
    SeparatorIsWhite(level, indent);
    SkipWhite(t, Separator(level, indent), [if v.Array? then ']' else '}'] + rest);
    t' := NothingCloses(t, v, rest);
  }

  lemma ItemFacts(v: Json, i: nat, d: nat)
    requires v.Array? && i < |v.items| && Convertible(v) && Keyed(v) && Nests(v, d)
    ensures Convertible(v.items[i]) && Keyed(v.items[i]) && d > 1 && Nests(v.items[i], d - 1)
    ensures Narrow(v).items[..i] + [Narrow(v.items[i])] == Narrow(v).items[..i+1] && |Narrow(v).items| == |v.items|
  {
  }

  /** One item, up to what ends it */
  lemma {:induction false} ItemTextBack(t: Tok, v: Json, i: nat, level: nat, indent: bool, tail: string)
    returns (u: Tok)
    requires WaitsForItem(t) && v.Array? && i < |v.items| && Convertible(v) && Keyed(v) && Nests(v, |t.stack| - t.depth)
    requires tail != "" && Ends(tail[0])
    ensures Below(t, ArrayAdd, u) && Top(u) == Srec(Eatws, Finish, Narrow(v.items[i]), None) && u.err == Success
      && u.hi == 0
    ensures Run(t, 0, Text(v.items[i], level, indent) + tail)
        == More(Run(u, 0, tail), |Text(v.items[i], level, indent)|)
    decreases v, 0, 0
  {
    hide Run, Switch, Wf, Keyed, Convertible, Nests, Text, Narrow;
    ItemFacts(v, i, |t.stack| - t.depth);
    var item := Text(v.items[i], level, indent);
    TextStarts(v.items[i], level, indent);
    var u0 := ItemOpens(t, item + tail);
    u := TextBack(u0, v.items[i], level, indent, tail);
    BelowStays(t, ArrayAdd, u0, u);
  }

  /** The text of the items behind the i-th */
  lemma MoreItems(v: Json, i: nat, level: nat, indent: bool, tail: string)
    requires v.Array? && i < |v.items| && Convertible(v)
    ensures ItemsText(v, i + 1, level, indent) + tail ==
        if i + 1 == |v.items| then tail
        else
          [',']
            + (Separator(level, indent)
                 + (Text(v.items[i+1], level, indent) + (ItemsText(v, i + 2, level, indent) + tail)))
    ensures ItemsText(v, 0, level, indent) + tail
        == Text(v.items[0], level, indent) + (ItemsText(v, 1, level, indent) + tail)
  {
    hide ItemsText, Text, Separator, Convertible;
    OneItem(v, 0, level, indent);
    Shift("", Text(v.items[0], level, indent), ItemsText(v, 1, level, indent), tail);
    if i + 1 < |v.items| {
      OneItem(v, i + 1, level, indent);
      Shift(Separator(level, indent), Text(v.items[i+1], level, indent), ItemsText(v, i + 2, level, indent), tail);
    } else {
      assert "" + tail == tail;
    }
  }

  lemma Shift(s: string, x: string, y: string, tail: string)
    ensures ("," + s) + x + y + tail == [','] + (s + (x + (y + tail))) && "" + x + y + tail == x + (y + tail)
  {
  }

  lemma OneItem(v: Json, i: nat, level: nat, indent: bool)
    requires v.Array? && i < |v.items| && Convertible(v)
    ensures Convertible(v.items[i])
    ensures ItemsText(v, i, level, indent)
        == Comma(i, level, indent) + Text(v.items[i], level, indent) + ItemsText(v, i + 1, level, indent)
    ensures ItemsText(v, |v.items|, level, indent) == ""
  {
  }

  lemma TailEnds(level: nat, indent: bool, bracket: string, rest: string)
    requires bracket == "]" || bracket == "}"
    ensures var tail := Separator(level, indent) + (bracket + rest);
      tail != "" && Ends(tail[0]) && |tail| == |Separator(level, indent)| + 1 + |rest|
  {
    SeparatorIsWhite(level, indent);
  }

  /** The items from the i-th on, and the bracket */
  lemma {:induction false} ItemsTextBack(t: Tok, v: Json, i: nat, level: nat, indent: bool, rest: string)
    returns (t': Tok)
    requires WaitsForItem(t) && v.Array? && i < |v.items| && Convertible(v) && Keyed(v) && Nests(v, |t.stack| - t.depth)
    requires Top(t).current == Array(Narrow(v).items[..i]) && Top(t).key == None && i <= |Narrow(v).items|
    ensures var x := Text(v.items[i], level + 1,
      indent) + (ItemsText(v, i + 1, level + 1, indent) + (Separator(level, indent) + ("]" + rest)));
      Has(t, Narrow(v), t') && Run(t, 0, x) == More(Run(t', 0, rest), |x| - |rest|)
    decreases v, 0, |v.items| - i + 2
  {
    hide Run, Switch, Wf, Keyed, Convertible, Nests, Text, Narrow, Separator, ItemsText, Below, SameLevel, Has,
      WaitsForItem;
    var tail := Separator(level, indent) + ("]" + rest);
    NarrowKind(v);
    MoreItems(v, i, level + 1, indent, tail);
    ItemFacts(v, i, |t.stack| - t.depth);
    if i + 1 == |v.items| {
      t' := LastItemBack(t, v, level, indent, rest);
    } else {
      ItemFacts(v, i + 1, |t.stack| - t.depth);
      var more := Text(v.items[i+1], level + 1, indent) + (ItemsText(v, i + 2, level + 1, indent) + tail);
      var q := ItemGoesOn(t, v, i, level, indent, more);
      t' := ItemsTextBack(q, v, i + 1, level, indent, rest);
      SameHas(t, q, Narrow(v), t');
    }
  }

  /** One item and the separator behind it */
  lemma {:induction false} ItemGoesOn(t: Tok, v: Json, i: nat, level: nat, indent: bool, more: string) returns (q: Tok)
    requires WaitsForItem(t) && v.Array? && i < |v.items| && Convertible(v) && Keyed(v) && Nests(v, |t.stack| - t.depth)
    requires Top(t).current == Array(Narrow(v).items[..i]) && Top(t).key == None && i <= |Narrow(v).items|
    ensures WaitsForItem(q) && SameLevel(t, q) && |Narrow(v).items| == |v.items|
      && |q.stack| - q.depth == |t.stack| - t.depth
    ensures Top(q).current == Array(Narrow(v).items[..i+1]) && Top(q).key == None
    ensures var x := Text(v.items[i], level + 1, indent) + ([','] + (Separator(level + 1, indent) + more));
      Run(t, 0, x) == More(Run(q, 0, more), |x| - |more|)
    decreases v, 0, 1
  {
    hide Run, Switch, Wf, Keyed, Convertible, Nests, Text, Narrow, Separator, ItemsText, Below, SameLevel, WaitsForItem;
    var sep := Separator(level + 1, indent);
    ItemFacts(v, i, |t.stack| - t.depth);
    SeparatorIsWhite(level + 1, indent);
    var u := ItemTextBack(t, v, i, level + 1, indent, [','] + (sep + more));
    q := ItemCloses(t, u, Narrow(v.items[i]), ',', sep + more);
    SameWaits(t, q);
    SkipWhite(q, sep, more);
  }

  lemma {:induction false} LastItemBack(t: Tok, v: Json, level: nat, indent: bool, rest: string) returns (t': Tok)
    requires WaitsForItem(t) && v.Array? && v.items != [] && Convertible(v) && Keyed(v) && Nests(v, |t.stack| - t.depth)
    requires Narrow(v).Array? && |Narrow(v).items| == |v.items|
      && Top(t).current == Array(Narrow(v).items[..|v.items|-1]) && Top(t).key == None
    ensures var x := Text(v.items[|v.items|-1], level + 1, indent) + (Separator(level, indent) + ("]" + rest));
      Has(t, Narrow(v), t') && Run(t, 0, x) == More(Run(t', 0, rest), |x| - |rest|)
    decreases v, 0, 1
  {
    hide Run, Switch, Wf, Keyed, Convertible, Nests, Text, Narrow, Separator, ItemsText, Below;
    var i, close := |v.items| - 1, Separator(level, indent);
    ItemFacts(v, i, |t.stack| - t.depth);
    TailEnds(level, indent, "]", rest);
    SeparatorIsWhite(level, indent);
    var u := ItemTextBack(t, v, i, level + 1, indent, close + ("]" + rest));
    SkipWhite(u, close, "]" + rest);
    t' := ItemCloses(t, u, Narrow(v.items[i]), ']', rest);
    assert Narrow(v).items[..i+1] == Narrow(v).items;
  }

  lemma {:induction false} LastFieldBack(t: Tok, v: Json, level: nat, indent: bool, rest: string) returns (t': Tok)
    requires WaitsForKey(t) && v.Object? && v.fields != [] && Convertible(v) && Keyed(v)
      && Nests(v, |t.stack| - t.depth)
    requires Narrow(v).Object? && |Narrow(v).fields| == |v.fields|
      && Top(t).current == Object(Narrow(v).fields[..|v.fields|-1]) && Top(t).key == None
    ensures var x := FieldText(v, |v.fields| - 1, level + 1, indent) + (Separator(level, indent) + ("}" + rest));
      Has(t, Narrow(v), t') && Run(t, 0, x) == More(Run(t', 0, rest), |x| - |rest|)
    decreases v, 0, 1
  {
    hide Run, Switch, Wf, Keyed, Convertible, Nests, FieldText, Narrow, Separator, FieldsText, Below;
    var i, close := |v.fields| - 1, Separator(level, indent);
    FieldFacts(v, i, |t.stack| - t.depth);
    TailEnds(level, indent, "}", rest);
    SeparatorIsWhite(level, indent);
    var w, u := FieldTextBack(t, v, i, level + 1, indent, close + ("}" + rest));
    SkipWhite(u, close, "}" + rest);
    t' := FieldCloses(w, u, Narrow(v.fields[i].value), '}', rest);
    PutNewField(Narrow(v).fields[..i], Top(w).key.value, Narrow(v.fields[i].value));
    assert Narrow(v).fields[..i+1] == Narrow(v).fields;
  }

  lemma NarrowKind(v: Json)
    ensures v.Array? ==> Narrow(v).Array? && Narrow(v) == Array(Narrow(v).items)
    ensures v.Object? ==> Narrow(v).Object? && Narrow(v) == Object(Narrow(v).fields)
  {
  }

  lemma {:induction false} ObjectTextBack(t: Tok, v: Json, level: nat, indent: bool, rest: string) returns (t': Tok)
    requires Fresh(t) && v.Object? && Convertible(v) && Keyed(v) && Nests(v, |t.stack| - t.depth) && rest != ""
    ensures Has(t, Narrow(v), t')
      && Run(t, 0, Text(v, level, indent) + rest) == More(Run(t', 0, rest), |Text(v, level, indent)|)
    decreases v, 1, |v.fields| + 2
  {
    hide Run, Wf, Switch, Separator, FieldsText, FieldText, Text, Narrow, Convertible, Keyed, Nests, Fresh, Has,
      SameLevel, WaitsForKey, AtRest, Process, IsSpace;
    var tail := Separator(level, indent) + ("}" + rest);
    var all := FieldsText(v, 0, level + 1, indent) + tail;
    NarrowKind(v);
    OpenText(v, level, indent, rest);
    var u := ObjectOpens(t, level + 1, indent, all);
    NoText(v, level + 1, indent);
    if v.fields == [] {
      assert all == tail;
      t' := EmptyEnds(u, v, level, indent, rest);
    } else {
      assert Narrow(v).fields[..0] == [];
      MoreFields(v, 0, level + 1, indent, tail);
      t' := FieldsTextBack(u, v, 0, level, indent, rest);
    }
    SameHas(t, u, Narrow(v), t');
  }

  lemma FieldFacts(v: Json, i: nat, d: nat)
    requires v.Object? && i < |v.fields| && Convertible(v) && Keyed(v) && Nests(v, d)
    ensures Convertible(v.fields[i].value) && Keyed(v.fields[i].value) && d > 1 && Nests(v.fields[i].value, d - 1)
    ensures |Narrow(v).fields| == |v.fields| && v.fields[i].key != "" && NUL !in v.fields[i].key
    ensures Narrow(v).fields[..i] + [Field(v.fields[i].key, Narrow(v.fields[i].value))] == Narrow(v).fields[..i+1]
    ensures forall g :: g in Narrow(v).fields[..i] ==> g.key != v.fields[i].key
  {
  }

  lemma FieldParts(v: Json, i: nat, level: nat, indent: bool, tail: string)
    requires v.Object? && i < |v.fields| && Convertible(v) && v.fields[i].key != "" && NUL !in v.fields[i].key
    ensures FieldText(v, i, level, indent) + tail
        == StringText(v.fields[i].key)
             + ([':'] + ((if indent then " " else "") + (Text(v.fields[i].value, level, indent) + tail)))
    ensures |FieldText(v, i, level, indent)|
         == |StringText(v.fields[i].key)| + 1 + (if indent then 1 else 0) + |Text(v.fields[i].value, level, indent)|
  {
    hide Text, StringText;
    var key := v.fields[i].key;
    assert CString(key) == key;
  }

  /** One key and its value, up to what ends it */
  lemma {:induction false} FieldTextBack(t: Tok, v: Json, i: nat, level: nat, indent: bool, tail: string)
    returns (w: Tok, u: Tok)
    requires WaitsForKey(t) && v.Object? && i < |v.fields| && Convertible(v) && Keyed(v)
      && Nests(v, |t.stack| - t.depth)
    requires tail != "" && Ends(tail[0])
    ensures SameLevel(t, w) && WaitsForValue(w) && Top(w).current == Top(t).current
      && Top(w).key == Some(v.fields[i].key)
    ensures Below(w, ObjectValueAdd, u) && Top(u) == Srec(Eatws, Finish, Narrow(v.fields[i].value), None)
      && u.err == Success && u.hi == 0
    ensures Run(t, 0, FieldText(v, i, level, indent) + tail) == More(Run(u, 0, tail), |FieldText(v, i, level, indent)|)
    decreases v, 0, 0
  {
    hide Run, Switch, Wf, Keyed, Convertible, Nests, Text, StringText, Narrow, FieldText, Ends;
    FieldFacts(v, i, |t.stack| - t.depth);
    var key, val, space := v.fields[i].key, Text(v.fields[i].value, level, indent), if indent then " " else "";
    FieldParts(v, i, level, indent, tail);
    var k := KeyTextBack(t, key, [':'] + (space + (val + tail)));
    w := ColonBack(k, space + (val + tail));
    SkipWhite(w, space, val + tail);
    TextStarts(v.fields[i].value, level, indent);
    var u0 := ValueOpens(w, val + tail);
    u := TextBack(u0, v.fields[i].value, level, indent, tail);
    BelowStays(w, ObjectValueAdd, u0, u);
  }

  /** The text of the fields behind the i-th */
  lemma MoreFields(v: Json, i: nat, level: nat, indent: bool, tail: string)
    requires v.Object? && i < |v.fields| && Convertible(v)
    ensures FieldsText(v, i + 1, level, indent) + tail ==
        if i + 1 == |v.fields| then tail
        else
          [',']
            + (Separator(level, indent)
                 + (FieldText(v, i + 1, level, indent) + (FieldsText(v, i + 2, level, indent) + tail)))
    ensures FieldsText(v, 0, level, indent) + tail
        == FieldText(v, 0, level, indent) + (FieldsText(v, 1, level, indent) + tail)
  {
    hide FieldsText, FieldText, Separator, Convertible;
    OneField(v, 0, level, indent);
    Shift("", FieldText(v, 0, level, indent), FieldsText(v, 1, level, indent), tail);
    if i + 1 < |v.fields| {
      OneField(v, i + 1, level, indent);
      Shift(Separator(level, indent), FieldText(v, i + 1, level, indent), FieldsText(v, i + 2, level, indent), tail);
    } else {
      assert "" + tail == tail;
    }
  }

  lemma OneField(v: Json, i: nat, level: nat, indent: bool)
    requires v.Object? && i < |v.fields| && Convertible(v)
    ensures FieldsText(v, i, level, indent)
        == Comma(i, level, indent) + FieldText(v, i, level, indent) + FieldsText(v, i + 1, level, indent)
    ensures FieldsText(v, |v.fields|, level, indent) == ""
  {
  }

  /** One field, the comma and the white space behind it */
  lemma {:induction false} FieldGoesOn(t: Tok, v: Json, i: nat, level: nat, indent: bool, more: string) returns (q: Tok)
    requires WaitsForKey(t) && v.Object? && i < |v.fields| && Convertible(v) && Keyed(v)
      && Nests(v, |t.stack| - t.depth)
    requires Narrow(v).Object? && |Narrow(v).fields| == |v.fields|
      && Top(t).current == Object(Narrow(v).fields[..i])
    ensures WaitsForKey(q) && SameLevel(t, q) && |q.stack| - q.depth == |t.stack| - t.depth
    ensures Top(q).current == Object(Narrow(v).fields[..i+1]) && Top(q).key == None
    ensures var x := FieldText(v, i, level + 1, indent) + ([','] + (Separator(level + 1, indent) + more));
      Run(t, 0, x) == More(Run(q, 0, more), |x| - |more|)
    decreases v, 0, 1
  {
    hide Run, Switch, Wf, Keyed, Convertible, Nests, FieldText, Narrow, Separator, Below, SameLevel, WaitsForKey,
      WaitsForValue, PutField;
    var sep := Separator(level + 1, indent);
    FieldFacts(v, i, |t.stack| - t.depth);
    SeparatorIsWhite(level + 1, indent);
    var w, u := FieldTextBack(t, v, i, level + 1, indent, [','] + (sep + more));
    q := FieldCloses(w, u, Narrow(v.fields[i].value), ',', sep + more);
    PutNewField(Narrow(v).fields[..i], v.fields[i].key, Narrow(v.fields[i].value));
    SameTwice(t, w, q);
    SameWaits(t, q);
    SkipWhite(q, sep, more);
  }

  /** The fields from the i-th on, and the bracket */
  lemma {:induction false} FieldsTextBack(t: Tok, v: Json, i: nat, level: nat, indent: bool, rest: string)
    returns (t': Tok)
    requires WaitsForKey(t) && v.Object? && i < |v.fields| && Convertible(v) && Keyed(v)
      && Nests(v, |t.stack| - t.depth)
    requires i <= |Narrow(v).fields| && Top(t).current == Object(Narrow(v).fields[..i]) && Top(t).key == None
    ensures var x := FieldText(v, i, level + 1,
      indent) + (FieldsText(v, i + 1, level + 1, indent) + (Separator(level, indent) + ("}" + rest)));
      Has(t, Narrow(v), t') && Run(t, 0, x) == More(Run(t', 0, rest), |x| - |rest|)
    decreases v, 0, |v.fields| - i + 2
  {
    hide Run, Switch, Wf, Keyed, Convertible, Nests, FieldText, Narrow, Separator, FieldsText, Below, SameLevel, Has,
      WaitsForKey, WaitsForValue;
    var close, sep := Separator(level, indent), Separator(level + 1, indent);
    var tail := close + ("}" + rest);
    NarrowKind(v);
    MoreFields(v, i, level + 1, indent, tail);
    FieldFacts(v, i, |t.stack| - t.depth);
    TailEnds(level, indent, "}", rest);
    if i + 1 == |v.fields| {
      t' := LastFieldBack(t, v, level, indent, rest);
    } else {
      var more := FieldText(v, i + 1, level + 1, indent) + (FieldsText(v, i + 2, level + 1, indent) + tail);
      var q := FieldGoesOn(t, v, i, level, indent, more);
      t' := FieldsTextBack(q, v, i + 1, level, indent, rest);
      SameHas(t, q, Narrow(v), t');
    }
  }

  /** json_tokener_parse of the text of a value gives the value, its strings and numbers cut. */
  lemma TextRoundTrip(t: Tok, v: Json, level: nat, indent: bool)
    requires t.depth == 0 && Top(t) == FRESH && Convertible(v) && Keyed(v) && Nests(v, |t.stack|)
    ensures var r := Parse(t, Text(v, level, indent) + [NUL]).tok; r.err == Success && Result(r) == Narrow(v)
  {
    hide Text;
    var u := Begin(t);
    assert Fresh(u);
    var t' := TextBack(u, v, level, indent, [NUL]);
    FinalNul(t', Narrow(v));
  }
}
