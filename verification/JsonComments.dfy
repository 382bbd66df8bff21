/** What cJSON_Minify makes of texts with comments: of any sequence of white space, comments, string literals and other
  characters exactly the literals and the other characters are left, in order.
*/
module JsonComments {
  import opened Json
  import opened JsonMinify
  import opened JsonRoundTrip

  datatype Token =
    | Space(c: char)
    | Line(text: string)       // a comment to the end of the line
    | Block(text: string)      // a comment between marks
    | Literal(body: string)
    | Slash                    // one that begins no comment
    | Other(c: char)

  /** A backslash takes the next character with it; other quotes end the literal. */
  predicate IsBody(t: string)
  {
    t == "" ||
    if t[0] == '\\' then |t| >= 2 && t[1] != NUL && IsBody(t[2..]) else t[0] != '\"' && t[0] != NUL && IsBody(t[1..])
  }

  /** The first mark that ends the comment is its own. */
  predicate IsComment(t: string)
  {
    forall k :: 0 <= k <= |t| ==> !(("*" + (t + "*/"))[k] == '*' && ("*" + (t + "*/"))[k + 1] == '/')
  }

  predicate IsToken(t: Token)
  {
    match t
    case Space(c) => IsSpace(c)
    case Line(text) => NUL !in text && '\n' !in text
    case Block(text) => NUL !in text && IsComment(text)
    case Literal(body) => IsBody(body)
    case Slash => true
    case Other(c) => IsPlain(c) && c != NUL
  }

  function TokenText(t: Token): string
  {
    match t
    case Space(c) => [c]
    case Line(text) => "//" + text
    case Block(text) => "/" + ("*" + (text + "*/"))
    case Literal(body) => "\"" + (body + "\"")
    case Slash => "/"
    case Other(c) => [c]
  }

  /** What is left of a token. */
  function Kept(t: Token): string { if t.Literal? || t.Slash? || t.Other? then TokenText(t) else "" }

  function Texts(ts: seq<Token>): string { if ts == [] then "" else TokenText(ts[0]) + Texts(ts[1..]) }

  function KeptTexts(ts: seq<Token>): string { if ts == [] then "" else Kept(ts[0]) + KeptTexts(ts[1..]) }

  /** A line comment goes to the end of the line or of the text, and a slash alone is followed by no other and by no
      star. */
  predicate AreTokens(ts: seq<Token>)
  {
    && (forall k :: 0 <= k < |ts| ==> IsToken(ts[k]))
    && (forall k :: 0 <= k < |ts| - 1 && ts[k].Line? ==> ts[k + 1] == Space('\n'))
    && (forall k :: 0 <= k < |ts| - 1 && ts[k].Slash? ==> NoComment(TokenText(ts[k + 1])))
  }

  predicate NoComment(t: string) { t != "" && t[0] != '/' && t[0] != '*' }

  // ---------- one token ----------

  lemma {:induction false} LineEndIs(s: string, i: nat, t: string)
    requires Has(s, i, t) && NUL !in t && '\n' !in t && (At(s, i + |t|) == NUL || At(s, i + |t|) == '\n')
    ensures LineEnd(s, i) == i + |t|
    decreases |t|
  {
    if t != "" {
      HasAt(s, i, t, 0);
      LineEndIs(s, i + 1, t[1..]);
    }
  }

  /** From `i` to `j` no comment ends. */
  lemma {:induction false} CommentEndIs(s: string, i: nat, j: nat)
    requires i <= j < |s| && s[j] == '*' && At(s, j + 1) == '/'
    requires forall k :: i <= k < j ==> At(s, k) != NUL && !(At(s, k) == '*' && At(s, k + 1) == '/')
    ensures CommentEnd(s, i) == j
    decreases j - i
  {
    if i < j { CommentEndIs(s, i + 1, j); }
  }

  lemma {:induction false} LiteralEndIs(s: string, i: nat, t: string)
    requires IsBody(t) && Has(s, i, t) && At(s, i + |t|) == '\"'
    ensures LiteralEnd(s, i) == i + |t|
    decreases |t|
  {
    if t != "" {
      HasAt(s, i, t, 0);
      LiteralEndIs(s, if t[0] == '\\' then i + 2 else i + 1, if t[0] == '\\' then t[2..] else t[1..]);
    }
  }

  lemma BlockEnds(s: string, i: nat, text: string)
    requires NUL !in s && IsComment(text) && Has(s, i, "*" + (text + "*/"))
    ensures CommentEnd(s, i) == i + 1 + |text|
  {
    var z := "*" + (text + "*/");
    var j := i + 1 + |text|;
    HasAt(s, i, z, |text| + 1);
    HasAt(s, i, z, |text| + 2);
    forall k | i <= k < j ensures At(s, k) != NUL && !(At(s, k) == '*' && At(s, k + 1) == '/') {
      HasAt(s, i, z, k - i);
      HasAt(s, i, z, k - i + 1);
      assert s[k] in s;
      assert !(z[k - i] == '*' && z[k - i + 1] == '/');
    }
    CommentEndIs(s, i, j);
  }

  lemma NothingKept(m: Minified)
    ensures Then("", m) == m
  {
    if m.Text? { assert "" + m.t == m.t; }
  }

  lemma LineTurns(s: string, i: nat, text: string)
    requires NUL !in s && NUL !in text && '\n' !in text && Has(s, i, "//" + text)
    requires At(s, i + |"//" + text|) == NUL || At(s, i + |"//" + text|) == '\n'
    ensures Minify(s, i) == Minify(s, i + |"//" + text|)
  {
    hide Minify, Has, At, LineEnd, CommentEnd, LiteralEnd;
    HasIn(s, i, "//" + text);
    HasSplit(s, i, "//", text);
    HasAt(s, i, "//", 0);
    HasAt(s, i, "//", 1);
    LineEndIs(s, i + 2, text);
    MinifyCases(s, i);
  }

  lemma BlockTurns(s: string, i: nat, text: string)
    requires NUL !in s && IsComment(text) && Has(s, i, "/" + ("*" + (text + "*/")))
    ensures Minify(s, i) == Minify(s, i + 4 + |text|)
  {
    hide Minify, Has, At, LineEnd, CommentEnd, LiteralEnd, IsComment;
    HasIn(s, i, "/" + ("*" + (text + "*/")));
    HasSplit(s, i, "/", "*" + (text + "*/"));
    HasAt(s, i, "/", 0);
    HasAt(s, i + 1, "*" + (text + "*/"), 0);
    BlockEnds(s, i + 1, text);
    MinifyCases(s, i);
  }

  lemma LiteralTurns(s: string, i: nat, body: string)
    requires NUL !in s && IsBody(body) && Has(s, i, "\"" + (body + "\""))
    ensures Minify(s, i) == Then("\"" + (body + "\""), Minify(s, i + 2 + |body|))
  {
    hide Minify, Has, At, LineEnd, CommentEnd, LiteralEnd, IsBody, Then;
    var t := "\"" + (body + "\"");
    HasIn(s, i, t);
    HasSplit(s, i, "\"", body + "\"");
    HasSplit(s, i + 1, body, "\"");
    HasAt(s, i, "\"", 0);
    HasAt(s, i + 1 + |body|, "\"", 0);
    LiteralEndIs(s, i + 1, body);
    HasSlice(s, i, t);
    MinifyCases(s, i);
  }

  lemma CharTurns(s: string, i: nat, c: char)
    requires NUL !in s && Has(s, i, [c]) && (IsSpace(c) || IsPlain(c))
    ensures Minify(s, i) == if IsSpace(c) then Minify(s, i + 1) else Then([c], Minify(s, i + 1))
  {
    hide Minify, Has, At, LineEnd, CommentEnd, LiteralEnd, Then;
    HasIn(s, i, [c]);
    HasAt(s, i, [c], 0);
    MinifyCases(s, i);
  }

  lemma SlashTurns(s: string, i: nat)
    requires NUL !in s && Has(s, i, "/") && At(s, i + 1) != '/' && At(s, i + 1) != '*'
    ensures Minify(s, i) == Then("/", Minify(s, i + 1))
  {
    hide Minify, Has, At, LineEnd, CommentEnd, LiteralEnd, Then;
    HasIn(s, i, "/");
    HasAt(s, i, "/", 0);
    MinifyCases(s, i);
  }

  lemma TokenTurns(s: string, i: nat, t: Token)
    requires NUL !in s && IsToken(t) && Has(s, i, TokenText(t))
    requires t.Slash? ==> At(s, i + 1) != '/' && At(s, i + 1) != '*'
    requires t.Line? ==> At(s, i + |TokenText(t)|) == NUL || At(s, i + |TokenText(t)|) == '\n'
    ensures Turns(s, i, TokenText(t), Kept(t))
  {
    hide Minify, Has, At, IsBody, IsComment, Then;
    NothingKept(Minify(s, i + |TokenText(t)|));
    match t
    case Space(c) => CharTurns(s, i, c);
    case Line(text) => LineTurns(s, i, text);
    case Block(text) => BlockTurns(s, i, text);
    case Literal(body) => LiteralTurns(s, i, body);
    case Slash => SlashTurns(s, i);
    case Other(c) => CharTurns(s, i, c);
  }

  lemma HasIn(s: string, i: nat, t: string)
    requires Has(s, i, t) && t != ""
    ensures i < |s| && i + |t| <= |s|
  {
  }

  // ---------- all tokens ----------

  lemma {:induction false} BodyNoNul(t: string)
    requires IsBody(t)
    ensures NUL !in t
    decreases |t|
  {
    if t != "" {
      if t[0] == '\\' {
        BodyNoNul(t[2..]);
        assert t == [t[0], t[1]] + t[2..];
      } else {
        BodyNoNul(t[1..]);
        assert t == [t[0]] + t[1..];
      }
    }
  }

  lemma TokenNoNul(t: Token)
    requires IsToken(t)
    ensures NUL !in TokenText(t) && TokenText(t) != ""
  {
    if t.Literal? { BodyNoNul(t.body); }
  }

  lemma {:induction false} TextsNoNul(ts: seq<Token>)
    requires AreTokens(ts)
    ensures NUL !in Texts(ts)
    decreases |ts|
  {
    hide TokenText, IsToken;
    if ts != [] {
      TokenNoNul(ts[0]);
      TextsNoNul(ts[1..]);
    }
  }

  lemma {:induction false} TokensTurn(s: string, i: nat, ts: seq<Token>)
    requires NUL !in s && AreTokens(ts) && Has(s, i, Texts(ts)) && i + |Texts(ts)| == |s|
    ensures Turns(s, i, Texts(ts), KeptTexts(ts))
    decreases |ts|
  {
    hide Minify, Has, TokenText, IsToken, Turns, Kept;
    if ts == [] {
      NothingTurns(s, i);
    } else {
      var t, rest := ts[0], ts[1..];
      HasSplit(s, i, TokenText(t), Texts(rest));
      if t.Line? { LineIsOver(s, i, ts); }
      if t.Slash? { SlashIsAlone(s, i, ts); }
      TokenTurns(s, i, t);
      TokensTurn(s, i + |TokenText(t)|, rest);
      TurnsJoin(s, i, TokenText(t), Kept(t), Texts(rest), KeptTexts(rest));
    }
  }

  lemma NothingTurns(s: string, i: nat)
    requires NUL !in s
    ensures Turns(s, i, "", "")
  {
    NothingKept(Minify(s, i));
  }

  lemma LineIsOver(s: string, i: nat, ts: seq<Token>)
    requires AreTokens(ts) && ts != [] && ts[0].Line?
    requires Has(s, i + |TokenText(ts[0])|, Texts(ts[1..])) && i + |Texts(ts)| == |s|
    ensures At(s, i + |TokenText(ts[0])|) == NUL || At(s, i + |TokenText(ts[0])|) == '\n'
  {
    if |ts| > 1 {
      assert ts[1..][0] == Space('\n');
      HasAt(s, i + |TokenText(ts[0])|, Texts(ts[1..]), 0);
    }
  }

  lemma SlashIsAlone(s: string, i: nat, ts: seq<Token>)
    requires AreTokens(ts) && ts != [] && ts[0].Slash?
    requires Has(s, i + |TokenText(ts[0])|, Texts(ts[1..])) && i + |Texts(ts)| == |s|
    ensures At(s, i + 1) != '/' && At(s, i + 1) != '*'
  {
    if |ts| > 1 {
      assert ts[1..][0] == ts[1] && NoComment(TokenText(ts[1]));
      HasAt(s, i + 1, Texts(ts[1..]), 0);
    }
  }

  /** White space and comments go, all else stays. */
  lemma MinifyTokens(ts: seq<Token>)
    requires AreTokens(ts)
    ensures NUL !in Texts(ts) && Minify(Texts(ts), 0) == Text(KeptTexts(ts))
  {
    hide Minify, AreTokens, Texts, KeptTexts;
    var s := Texts(ts);
    TextsNoNul(ts);
    assert Has(s, 0, s);
    TokensTurn(s, 0, ts);
    MinifyEnd(s);
    assert KeptTexts(ts) + "" == KeptTexts(ts);
  }

  lemma MinifyEnd(s: string)
    requires NUL !in s
    ensures Minify(s, |s|) == Text("")
  {
  }

  /** A comment whose text has no end mark is taken for one, unless it begins with a slash: of its opening mark
      together with that slash the source makes a whole comment. */
  lemma CommentIff(text: string)
    requires NUL !in text && forall k :: 0 <= k < |text| ==> !((text + "*/")[k] == '*' && (text + "*/")[k + 1] == '/')
    ensures var s := "/" + ("*" + (text + "*/"));
      CommentEnd(s, 1) == |s| - 2 <==> !(text != "" && text[0] == '/')
  {
    hide IsComment, CommentEnd, Has;
    var s := "/" + ("*" + (text + "*/"));
    CommentAt(text, s);
    if text != "" && text[0] == '/' {
      CommentEndIs(s, 1, 1);
    } else {
      CommentWithin(text);
      BlockEnds(s, 1, text);
    }
  }

  lemma CommentAt(text: string, s: string)
    requires NUL !in text && s == "/" + ("*" + (text + "*/"))
    ensures |s| == |text| + 4 && s[1] == '*' && s[2] == (if text == "" then '*' else text[0])
    ensures Has(s, 1, "*" + (text + "*/")) && NUL !in s
  {
  }

  lemma CommentWithin(text: string)
    requires text == "" || text[0] != '/'
    requires forall k :: 0 <= k < |text| ==> !((text + "*/")[k] == '*' && (text + "*/")[k + 1] == '/')
    ensures IsComment(text)
  {
    var z := "*" + (text + "*/");
    forall k | 0 <= k <= |text| ensures !(z[k] == '*' && z[k + 1] == '/') {
      assert z[k + 1] == (text + "*/")[k];
      if k > 0 { assert z[k] == (text + "*/")[k - 1]; }
    }
  }

  lemma CommentCounterexample()
    ensures Minify("/*/ */", 0) == Text("*/")
  {
    var s := "/*/ */";
    CommentEndIs(s, 1, 1);
    MinifyCases(s, 0);
    MinifyCases(s, 3);
    MinifyCases(s, 4);
    MinifyCases(s, 5);
    MinifyEnd(s);
  }
}
