/** The comments of json-c/json_tokener.c, which it skips like white space unless it is strict. */
module JsonComments {
  import opened JsonValue
  import opened JsonTokener
  import opened JsonRoundTrip

  /** What can stand in a comment up to the first end */
  predicate IsBody(b: string) {
    NUL !in b && forall i :: 0 <= i < |b| - 1 ==> !(b[i] == '*' && b[i+1] == '/')
  }

  function StarsAtEnd(b: string): nat {
    if b == "" || b[|b|-1] != '*' then 0 else 1 + StarsAtEnd(b[..|b|-1])
  }

  lemma LastStar(b: string, c: char)
    ensures StarsAtEnd(b + [c]) == if c == '*' then 1 + StarsAtEnd(b) else 0
    ensures StarsAtEnd(b) % 2 == 1 ==> b != "" && b[|b|-1] == '*'
  {
    assert (b + [c])[..|b|] == b;
  }

  /** Within a comment; text is what has been read of it. */
  function Within(t: Tok, text: string, atStar: bool): Tok {
    Go(t, if atStar then CommentEnd else Comment).(pb := text)
  }

  lemma Opens(t: Tok, rest: string)
    requires Top(t).state == Eatws && !t.strict
    ensures Run(t, 0, "/*" + rest) == More(Run(Within(t, "/*", false), 0, rest), 2)
  {
    hide Run;
    var t1 := Go(t, CommentStart).(pb := "/");
    assert "/*" + rest == ['/'] + (['*'] + rest);
    Step(t, 0, '/', ['*'] + rest, t1);
    assert "/" + ['*'] == "/*" && Within(t, "/*", false).stack == Go(t1, Comment).stack;
    Step(t1, 0, '*', rest, Within(t, "/*", false));
  }

  /** One character of the comment: a star leads on from outside a star, and back from one. */
  lemma OneChar(t: Tok, text: string, atStar: bool, c: char, rest: string)
    requires c != NUL && !(atStar && c == '/')
    ensures Run(Within(t, text, atStar), 0, [c] + rest)
         == More(Run(Within(t, text + [c], !atStar && c == '*'), 0, rest), 1)
  {
    var w, w' := Within(t, text, atStar), Within(t, text + [c], !atStar && c == '*');
    assert w'.stack == (if !atStar && c == '*' then Go(w, CommentEnd) else Go(w, Comment)).stack;
    assert !atStar && c != '*' ==> w.stack == w'.stack;
    assert Switch(w, Null, c, rest, 0) == Advance(w', 1);
    hide Run, Switch;
    Step(w, 0, c, rest, w');
  }

  lemma {:induction false} BodyRead(t: Tok, b: string, rest: string)
    requires Top(t).state == Eatws && !t.strict && IsBody(b)
    ensures Run(t, 0, "/*" + b + rest) == More(Run(Within(t, "/*" + b, StarsAtEnd(b) % 2 == 1), 0, rest), 2 + |b|)
    decreases |b|
  {
    hide Run, Within, StarsAtEnd, IsBody;
    if b == "" {
      Opens(t, rest);
      NoStar();
      assert "/*" + b + rest == "/*" + rest && "/*" + b == "/*";
    } else {
      var d, c := b[..|b|-1], b[|b|-1];
      Shorter(b);
      LastStar(d, c);
      assert b == d + [c] && "/*" + b + rest == "/*" + d + ([c] + rest) && "/*" + b == "/*" + d + [c];
      BodyRead(t, d, [c] + rest);
      OneChar(t, "/*" + d, StarsAtEnd(d) % 2 == 1, c, rest);
    }
  }

  lemma NoStar()
    ensures StarsAtEnd("") == 0
  {
  }

  lemma Shorter(b: string)
    requires IsBody(b) && b != ""
    ensures IsBody(b[..|b|-1]) && b[|b|-1] != NUL
    ensures StarsAtEnd(b[..|b|-1]) % 2 == 1 ==> b[|b|-1] != '/'
  {
    LastStar(b[..|b|-1], ' ');
  }

  lemma Closes(t: Tok, text: string, rest: string)
    requires Top(t).state == Eatws
    ensures Run(Within(t, text, true), 0, ['/'] + rest) == More(Run(t.(pb := text + ['/']), 0, rest), 1)
  {
    var w, t' := Within(t, text, true), t.(pb := text + ['/']);
    assert Go(w, Eatws).stack == t'.stack;
    assert Switch(w, Null, '/', rest, 0) == Advance(t', 1);
    hide Run, Switch;
    Step(w, 0, '/', rest, t');
  }

  /** A block comment up to the first end of one: it is skipped, and nothing but the scratch text changes, if and only
      if the number of stars in front of that is even. If it is odd, the comment goes on behind it. */
  lemma BlockComment(t: Tok, b: string, rest: string)
    requires Top(t).state == Eatws && !t.strict && IsBody(b)
    ensures var s := "/*" + b + "*/";
      var t' := if StarsAtEnd(b) % 2 == 0 then t.(pb := s) else Go(t, Comment).(pb := s);
      Run(t, 0, s + rest) == More(Run(t', 0, rest), |s|)
  {
    hide Run;
    var s, atStar := "/*" + b + "*/", StarsAtEnd(b) % 2 == 1;
    assert s + rest == "/*" + b + (['*'] + (['/'] + rest));
    BodyRead(t, b, ['*'] + (['/'] + rest));
    OneChar(t, "/*" + b, atStar, '*', ['/'] + rest);
    assert "/*" + b + ['*'] + ['/'] == s;
    if atStar {
      OneChar(t, "/*" + b + ['*'], false, '/', rest);
    } else {
      Closes(t, "/*" + b + ['*'], rest);
    }
  }

  /** The shortest one that does not end */
  lemma NeverClosed(t: Tok, rest: string)
    requires Top(t).state == Eatws && !t.strict
    ensures Run(t, 0, "/***/" + rest) == More(Run(Go(t, Comment).(pb := "/***/"), 0, rest), 5)
  {
    hide Run;
    assert StarsAtEnd("*") == 1 by { assert "*"[..0] == ""; }
    assert "/*" + "*" + "*/" == "/***/";
    BlockComment(t, "*", rest);
  }

  /** A comment up to the end of its line is skipped, whatever is in it. */
  lemma LineComment(t: Tok, b: string, rest: string)
    requires Top(t).state == Eatws && !t.strict && NUL !in b && '\n' !in b
    ensures Run(t, 0, "//" + b + "\n" + rest) == More(Run(t.(pb := "//" + b), 0, rest), |b| + 3)
  {
    hide Run;
    assert "//" + b + "\n" + rest == "//" + b + (['\n'] + rest);
    LineRead(t, b, ['\n'] + rest);
    LineEnds(t, "//" + b, rest);
  }

  function InLine(t: Tok, text: string): Tok {
    Go(t, CommentEol).(pb := text)
  }

  lemma LineEnds(t: Tok, text: string, rest: string)
    requires Top(t).state == Eatws
    ensures Run(InLine(t, text), 0, ['\n'] + rest) == More(Run(t.(pb := text), 0, rest), 1)
  {
    var w := InLine(t, text);
    assert Go(w, Eatws).stack == t.stack;
    assert Switch(w, Null, '\n', rest, 0) == Advance(t.(pb := text), 1);
    hide Run, Switch;
    Step(w, 0, '\n', rest, t.(pb := text));
  }

  lemma LineOpens(t: Tok, rest: string)
    requires Top(t).state == Eatws && !t.strict
    ensures Run(t, 0, "//" + rest) == More(Run(InLine(t, "//"), 0, rest), 2)
  {
    hide Run;
    var t1 := Go(t, CommentStart).(pb := "/");
    assert "//" + rest == ['/'] + (['/'] + rest);
    Step(t, 0, '/', ['/'] + rest, t1);
    assert "/" + ['/'] == "//" && InLine(t, "//").stack == Go(t1, CommentEol).stack;
    Step(t1, 0, '/', rest, InLine(t, "//"));
  }

  lemma {:induction false} LineRead(t: Tok, b: string, rest: string)
    requires Top(t).state == Eatws && !t.strict && NUL !in b && '\n' !in b
    ensures Run(t, 0, "//" + b + rest) == More(Run(InLine(t, "//" + b), 0, rest), 2 + |b|)
    decreases |b|
  {
    hide Run, InLine;
    if b == "" {
      LineOpens(t, rest);
      assert "//" + b + rest == "//" + rest && "//" + b == "//";
    } else {
      var d, c := b[..|b|-1], b[|b|-1];
      assert b == d + [c] && "//" + b + rest == "//" + d + ([c] + rest) && "//" + b == "//" + d + [c];
      LineRead(t, d, [c] + rest);
      LineChar(t, "//" + d, c, rest);
    }
  }

  lemma LineChar(t: Tok, text: string, c: char, rest: string)
    requires c != NUL && c != '\n'
    ensures Run(InLine(t, text), 0, [c] + rest) == More(Run(InLine(t, text + [c]), 0, rest), 1)
  {
    var w, w' := InLine(t, text), InLine(t, text + [c]);
    assert Switch(w, Null, c, rest, 0) == Advance(w', 1);
    hide Run, Switch;
    Step(w, 0, c, rest, w');
  }
}
