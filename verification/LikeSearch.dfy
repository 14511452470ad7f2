/** Escaping search text for LIKE, against LIKE's own semantics (section 8.5 of SQL-92). */
module LikeSearch {
  import opened Options

  /** strings.ReplaceAll for a non-empty `old`: left to right, without overlap. */
  function ReplaceAll(s: string, old_: string, new_: string): string
    requires old_ != ""
  {
    if |s| < |old_| then s
    else if old_ <= s then new_ + ReplaceAll(s[|old_|..], old_, new_)
    else [s[0]] + ReplaceAll(s[1..], old_, new_)
  }

  /** escapeILikeSearch. */
  function Escape(search: string): string {
    ReplaceAll(ReplaceAll(ReplaceAll(search, "\\", "\\\\"), "%", "\\%"), "_", "\\_")
  }

  predicate Special(c: char) {
    c == '\\' || c == '%' || c == '_'
  }

  function EncodeChar(c: char): string {
    if Special(c) then ['\\', c] else [c]
  }

  /** The one-pass encoding the three passes amount to. */
  function Encode(s: string): string {
    if s == "" then ""
    else EncodeChar(s[0]) + Encode(s[1..])
  }

  lemma ReplaceStep(s: string, c: char, new_: string)
    requires s != ""
    ensures ReplaceAll(s, [c], new_) == (if s[0] == c then new_ else [s[0]]) + ReplaceAll(s[1..], [c], new_)
  {
    assert [c] <= s <==> s[0] == c;
  }

  lemma {:induction false} ReplaceDistributes(x: string, y: string, c: char, new_: string)
    ensures ReplaceAll(x + y, [c], new_) == ReplaceAll(x, [c], new_) + ReplaceAll(y, [c], new_)
    decreases |x|
  {
    if x == "" {
      assert x + y == y;
    } else {
      var t := x[1..];
      ReplaceDistributes(t, y, c, new_);
      ReplaceStep(x, c, new_);
      ReplaceStep(x + y, c, new_);
      assert (x + y)[1..] == t + y && (x + y)[0] == x[0];
      var h := if x[0] == c then new_ else [x[0]];
      assert h + (ReplaceAll(t, [c], new_) + ReplaceAll(y, [c], new_)) == h + ReplaceAll(t, [c], new_) + ReplaceAll(y, [c], new_);
    }
  }

  lemma ReplaceShort(c: char, new_: string, a: char, b: char)
    ensures ReplaceAll([a], [c], new_) == if a == c then new_ else [a]
    ensures a != c && b != c ==> ReplaceAll([a, b], [c], new_) == [a, b]
    ensures a != c && b == c ==> ReplaceAll([a, b], [c], new_) == [a] + new_
  {
    assert ReplaceAll("", [c], new_) == "";
    assert [a][1..] == "" && [b][1..] == "" && [a, b][1..] == [b];
    assert new_ + "" == new_ && [a] + "" == [a];
    assert [c] <= [a] ==> [c][0] == [a][0];
    assert [c] <= [b] ==> [c][0] == [b][0];
    assert [c] <= [a, b] ==> [c][0] == [a, b][0];
    assert ReplaceAll([b], [c], new_) == if b == c then new_ else [b];
    assert [a] + [b] == [a, b];
  }

  lemma EscapeOne(c: char)
    ensures Escape([c]) == Encode([c])
  {
    ReplaceShort('\\', "\\\\", c, c);
    ReplaceShort('%', "\\%", c, c);
    ReplaceShort('_', "\\_", c, c);
    ReplaceShort('%', "\\%", '\\', '\\');
    ReplaceShort('_', "\\_", '\\', '\\');
    ReplaceShort('_', "\\_", '\\', '%');
    assert Encode([c]) == (if Special(c) then ['\\', c] else [c]) + "";
  }

  /** The three sequential passes equal the per-character encoding. */
  lemma {:induction false} EscapeIsEncode(s: string)
    ensures Escape(s) == Encode(s)
    decreases |s|
  {
    if s != "" {
      var h, t := [s[0]], s[1..];
      assert s == h + t;
      ReplaceDistributes(h, t, '\\', "\\\\");
      var h1, t1 := ReplaceAll(h, "\\", "\\\\"), ReplaceAll(t, "\\", "\\\\");
      ReplaceDistributes(h1, t1, '%', "\\%");
      var h2, t2 := ReplaceAll(h1, "%", "\\%"), ReplaceAll(t1, "%", "\\%");
      ReplaceDistributes(h2, t2, '_', "\\_");
      assert Escape(s) == Escape(h) + Escape(t);
      EscapeOne(s[0]);
      EscapeIsEncode(t);
      assert Encode(h) + Encode(t) == Encode(s) by {
        assert h[1..] == "";
      }
    }
  }

  datatype Token = AnyString | AnyChar | Literal(c: char)

  /** A pattern with escape character backslash; None when it ends in a lone escape. */
  function Parse(pattern: string): Option<seq<Token>> {
    if pattern == "" then Some([])
    else if pattern[0] == '\\' then
      if |pattern| == 1 then None
      else Prepend(Literal(pattern[1]), Parse(pattern[2..]))
    else
      Prepend(if pattern[0] == '%' then AnyString else if pattern[0] == '_' then AnyChar else Literal(pattern[0]),
              Parse(pattern[1..]))
  }

  function Prepend(t: Token, rest: Option<seq<Token>>): Option<seq<Token>> {
    match rest
    case None => None
    case Some(ts) => Some([t] + ts)
  }

  predicate Matches(subject: string, ts: seq<Token>, fold: char -> char)
    decreases |ts|, |subject|
  {
    if ts == [] then subject == ""
    else match ts[0]
    case AnyString => Matches(subject, ts[1..], fold) || (subject != "" && Matches(subject[1..], ts, fold))
    case AnyChar => subject != "" && Matches(subject[1..], ts[1..], fold)
    case Literal(c) => subject != "" && fold(subject[0]) == fold(c) && Matches(subject[1..], ts[1..], fold)
  }

  /** `subject ILIKE pattern ESCAPE '\'`; None is the error for a malformed pattern. */
  function ILike(subject: string, pattern: string, fold: char -> char): Option<bool> {
    match Parse(pattern)
    case None => None
    case Some(ts) => Some(Matches(subject, ts, fold))
  }

  predicate OccursAt(subject: string, s: string, i: int, fold: char -> char) {
    0 <= i && i + |s| <= |subject| && forall j :: 0 <= j < |s| ==> fold(subject[i + j]) == fold(s[j])
  }

  ghost predicate Contains(subject: string, s: string, fold: char -> char) {
    exists i :: OccursAt(subject, s, i, fold)
  }

  function Literals(s: string): seq<Token> {
    seq(|s|, i requires 0 <= i < |s| => Literal(s[i]))
  }

  lemma ParseHead(c: char, q: string)
    ensures Parse(EncodeChar(c) + q) == Prepend(Literal(c), Parse(q))
  {
    var p := EncodeChar(c) + q;
    assert p[|EncodeChar(c)|..] == q;
  }

  function PrependAll(s: string, rest: Option<seq<Token>>): Option<seq<Token>> {
    if s == "" then rest else Prepend(Literal(s[0]), PrependAll(s[1..], rest))
  }

  lemma {:induction false} PrependsLiterals(s: string, rest: Option<seq<Token>>)
    ensures PrependAll(s, rest) == if rest.None? then None else Some(Literals(s) + rest.value)
    decreases |s|
  {
    if s == "" {
      assert rest.Some? ==> Literals(s) + rest.value == rest.value;
    } else {
      PrependsLiterals(s[1..], rest);
      assert rest.Some? ==> Literals(s) + rest.value == [Literal(s[0])] + (Literals(s[1..]) + rest.value);
    }
  }

  /** Under LIKE the encoded text reads as its own characters, literally. */
  lemma {:induction false} ParseEncoded(s: string, rest: string)
    ensures Parse(Encode(s) + rest) == PrependAll(s, Parse(rest))
    decreases |s|
  {
    if s == "" {
      assert Encode(s) + rest == rest;
    } else {
      ParseEncoded(s[1..], rest);
      ParseHead(s[0], Encode(s[1..]) + rest);
      assert Encode(s) + rest == EncodeChar(s[0]) + (Encode(s[1..]) + rest);
    }
  }

  lemma {:induction false} MatchesAnything(subject: string, fold: char -> char)
    ensures Matches(subject, [AnyString], fold)
    decreases |subject|
  {
    if subject == "" {
      assert Matches(subject, [AnyString][1..], fold);
    } else {
      MatchesAnything(subject[1..], fold);
    }
  }

  lemma {:induction false} MatchesPrefix(subject: string, s: string, fold: char -> char)
    ensures Matches(subject, Literals(s) + [AnyString], fold) <==> OccursAt(subject, s, 0, fold)
    decreases |s|
  {
    var ts := Literals(s) + [AnyString];
    if s == "" {
      assert ts == [AnyString];
      MatchesAnything(subject, fold);
    } else {
      assert ts[1..] == Literals(s[1..]) + [AnyString];
      if subject != "" {
        var t := subject[1..];
        MatchesPrefix(t, s[1..], fold);
        if OccursAt(t, s[1..], 0, fold) && fold(subject[0]) == fold(s[0]) {
          forall j | 0 <= j < |s| ensures fold(subject[0 + j]) == fold(s[j]) {
            assert j > 0 ==> fold(t[0 + (j - 1)]) == fold(s[1..][j - 1]);
          }
        }
        if OccursAt(subject, s, 0, fold) {
          assert fold(subject[0 + 0]) == fold(s[0]);
          forall j | 0 <= j < |s[1..]| ensures fold(t[0 + j]) == fold(s[1..][j]) {
            assert fold(subject[0 + (j + 1)]) == fold(s[j + 1]);
          }
        }
      }
    }
  }

  lemma {:induction false} MatchesInside(subject: string, s: string, fold: char -> char)
    ensures Matches(subject, [AnyString] + Literals(s) + [AnyString], fold) <==> Contains(subject, s, fold)
    decreases |subject|
  {
    var ts := [AnyString] + Literals(s) + [AnyString];
    assert ts[1..] == Literals(s) + [AnyString];
    MatchesPrefix(subject, s, fold);
    if subject == "" {
      assert Contains(subject, s, fold) ==> OccursAt(subject, s, 0, fold);
    } else {
      var t := subject[1..];
      MatchesInside(t, s, fold);
      if Contains(subject, s, fold) && !OccursAt(subject, s, 0, fold) {
        var i :| OccursAt(subject, s, i, fold);
        forall j | 0 <= j < |s| ensures fold(t[i - 1 + j]) == fold(s[j]) {
          assert fold(subject[i + j]) == fold(s[j]);
        }
        assert OccursAt(t, s, i - 1, fold);
      }
      if Contains(t, s, fold) {
        var i :| OccursAt(t, s, i, fold);
        forall j | 0 <= j < |s| ensures fold(subject[i + 1 + j]) == fold(s[j]) {
          assert fold(t[i + j]) == fold(s[j]);
        }
        assert OccursAt(subject, s, i + 1, fold);
      }
    }
  }

  /** For every search text and subject, the search pattern is well formed and matches exactly
      the subjects that contain the text, up to case folding. */
  lemma SearchMatchesSubstrings(subject: string, search: string, fold: char -> char)
    ensures ILike(subject, "%" + Escape(search) + "%", fold) == Some(Contains(subject, search, fold))
  {
    EscapeIsEncode(search);
    ParseEncoded(search, "%");
    PrependsLiterals(search, Parse("%"));
    var p := "%" + Escape(search) + "%";
    assert p[1..] == Encode(search) + "%";
    assert "%"[1..] == "";
    assert Parse("") == Some([]) && [AnyString] + [] == [AnyString];
    assert Parse("%") == Some([AnyString]);
    assert [AnyString] + (Literals(search) + [AnyString]) == [AnyString] + Literals(search) + [AnyString];
    MatchesInside(subject, search, fold);
  }

  /** Without escaping an underscore would match any character: jane_doe finds janeXdoe. */
  lemma UnescapedOvermatches(fold: char -> char)
    requires forall c, d :: fold(c) == fold(d) ==> c == d
    ensures ILike("X", "_", fold) == Some(true) && !Contains("X", "_", fold)
    ensures ILike("X", Escape("_"), fold) == Some(false)
  {
    EscapeIsEncode("_");
    assert Encode("_") == "\\_" by {
      assert "_"[1..] == "";
    }
    assert Parse("\\_") == Some([Literal('_')]) by {
      assert "\\_"[2..] == "" && Parse("") == Some([]);
      assert [Literal('_')] + [] == [Literal('_')];
    }
    assert "_"[1..] == "" && "X"[1..] == "";
  }
}
