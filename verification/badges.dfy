/** The round user badges both the assignment screen and the review screen
    draw: a colour picked by the user's position in the user list, and the
    user's initials. */
module Badges {
  import opened Domain

  /** The background classes of the palette, in order. */
  const Palette: seq<string> := ["bg-blue-500", "bg-purple-500", "bg-emerald-500", "bg-orange-500",
                                 "bg-pink-500", "bg-cyan-500", "bg-yellow-500", "bg-rose-500"]

  /** `USER_COLORS[index % USER_COLORS.length]` */
  function UserColor(index: nat): (c: string)
    ensures c in Palette
  {
    Palette[index % |Palette|]
  }

  /** The colours cycle with period 8, and the first eight users get eight
      different colours. */
  lemma UserColorCycles(i: nat, j: nat)
    ensures UserColor(i + 8) == UserColor(i)
    ensures i < 8 && j < 8 && i != j ==> UserColor(i) != UserColor(j)
  {
    assert (i + 8) % 8 == i % 8;
    if i < 8 && j < 8 && i != j {
      assert i % 8 == i && j % 8 == j;
      assert forall a, b :: 0 <= a < b < 8 ==> Palette[a] != Palette[b];
    }
  }

  // ---------------------------------------------------------------------
  // Initials

  /** JavaScript `s.split(" ")`: the pieces between single spaces, an empty
      piece for each leading, trailing or repeated space. */
  function Words(s: string): (ws: seq<string>)
    ensures |ws| >= 1
    ensures forall k :: 0 <= k < |ws| ==> ' ' !in ws[k]
    ensures ws[|ws| - 1] == [] <==> s == [] || s[|s| - 1] == ' '
  {
    if s == [] then [[]]
    else
      var p := Words(s[..|s| - 1]);
      var c := s[|s| - 1];
      if c == ' ' then p + [[]]
      else p[..|p| - 1] + [p[|p| - 1] + [c]]
  }

  lemma JoinSnoc(ws: seq<string>, w: string, sep: string)
    requires ws != []
    ensures Join(ws + [w], sep) == Join(ws, sep) + sep + w
  {
    assert (ws + [w])[..|ws|] == ws;
  }

  /** Joining a sequence whose last piece is extended extends the result. */
  lemma JoinExtendLast(p: seq<string>, w: string, c: char)
    ensures Join(p + [w + [c]], " ") == Join(p + [w], " ") + [c]
  {
    if p == [] {
      assert p + [w + [c]] == [w + [c]];
      assert p + [w] == [w];
    } else {
      JoinSnoc(p, w + [c], " ");
      JoinSnoc(p, w, " ");
      var j := Join(p, " ");
      assert j + " " + w + [c] == j + " " + (w + [c]);
    }
  }

  lemma JoinExtendLastWord(ws: seq<string>, c: char)
    requires ws != []
    ensures Join(ws[..|ws| - 1] + [ws[|ws| - 1] + [c]], " ") == Join(ws, " ") + [c]
  {
    JoinExtendLast(ws[..|ws| - 1], ws[|ws| - 1], c);
    SnocLast(ws);
  }

  /** Splitting on spaces loses nothing: joining the pieces with spaces
      gives back the name. */
  lemma {:induction false} JoinWords(s: string)
    ensures Join(Words(s), " ") == s
  {
    if s != [] {
      var p, c := s[..|s| - 1], s[|s| - 1];
      JoinWords(p);
      var ws := Words(p);
      if c == ' ' {
        assert Words(s) == ws + [[]];
        JoinSnoc(ws, [], " ");
        assert Join(Words(s), " ") == p + " ";
      } else {
        assert Words(s) == ws[..|ws| - 1] + [ws[|ws| - 1] + [c]];
        JoinExtendLastWord(ws, c);
        assert Join(Words(s), " ") == p + [c];
      }
      assert p + [c] == s;
    }
  }

  /** `.map((w) => w[0]).join("")`: the first character of every piece;
      an empty piece gives `undefined`, which `join` writes as nothing. */
  function FirstLetters(ws: seq<string>): (r: string)
    ensures |r| <= |ws|
  {
    if ws == [] then []
    else
      var w := ws[|ws| - 1];
      FirstLetters(ws[..|ws| - 1]) + (if w == [] then [] else [w[0]])
  }

  /** Where a word starts: a non-space at the beginning or after a space. */
  predicate WordStart(s: string, i: int)
    requires 0 <= i < |s|
  {
    s[i] != ' ' && (i == 0 || s[i - 1] == ' ')
  }

  /** The characters at the word starts, left to right. */
  function StartLetters(s: string): (r: string)
    ensures |r| <= |s|
  {
    if s == [] then []
    else
      var p := s[..|s| - 1];
      StartLetters(p) + (if WordStart(s, |s| - 1) then [s[|s| - 1]] else [])
  }

  lemma FirstLettersExtendLast(ws: seq<string>, c: char)
    requires ws != []
    ensures FirstLetters(ws[..|ws| - 1] + [ws[|ws| - 1] + [c]]) ==
            FirstLetters(ws) + (if ws[|ws| - 1] == [] then [c] else [])
  {
    var p, w := ws[..|ws| - 1], ws[|ws| - 1];
    var q := p + [w + [c]];
    assert q[..|q| - 1] == p && q[|q| - 1] == w + [c];
    var f := FirstLetters(p);
    assert FirstLetters(q) == f + [(w + [c])[0]];
    if w == [] {
      assert FirstLetters(ws) == f;
      assert (w + [c])[0] == c;
    } else {
      assert FirstLetters(ws) == f + [w[0]];
      assert (w + [c])[0] == w[0];
      assert FirstLetters(ws) + [] == FirstLetters(ws);
    }
  }

  /** The first letters of the pieces are exactly the letters at the word
      starts. */
  lemma {:induction false} FirstLettersAreStarts(s: string)
    ensures FirstLetters(Words(s)) == StartLetters(s)
  {
    if s != [] {
      var p, c := s[..|s| - 1], s[|s| - 1];
      FirstLettersAreStarts(p);
      var ws := Words(p);
      if c == ' ' {
        assert (ws + [[]])[..|ws|] == ws;
      } else {
        FirstLettersExtendLast(ws, c);
      }
    }
  }

  /** `toUpperCase` on one character, for the Latin letters a-z. */
  function Upper(c: char): (u: char)
    ensures 'a' <= c <= 'z' ==> 'A' <= u <= 'Z'
    ensures !('a' <= c <= 'z') ==> u == c
  {
    if 'a' <= c <= 'z' then (c as int - 'a' as int + 'A' as int) as char else c
  }

  function UpperAll(s: string): (r: string)
    ensures |r| == |s| && forall k :: 0 <= k < |s| ==> r[k] == Upper(s[k])
  {
    seq(|s|, k requires 0 <= k < |s| => Upper(s[k]))
  }

  /** `.slice(0, 2)` */
  function Take2(s: string): (r: string)
    ensures |r| <= 2 && |r| <= |s| && r == s[..|r|]
    ensures |r| == if |s| < 2 then |s| else 2
  {
    if |s| <= 2 then s else s[..2]
  }

  /** `initials(name)`: the first letters of the space-separated words,
      upper-cased, at most two. */
  function Initials(name: string): (r: string)
    ensures |r| <= 2
  {
    Take2(UpperAll(FirstLetters(Words(name))))
  }

  /** The initials are the upper-cased letters at the first (at most) two
      word starts of the name; there are two of them exactly when the name
      has two words. */
  lemma InitialsMeaning(name: string)
    ensures var starts := StartLetters(name);
      Initials(name) == Take2(UpperAll(starts)) &&
      |Initials(name)| == (if |starts| < 2 then |starts| else 2) &&
      forall k :: 0 <= k < |Initials(name)| ==> Initials(name)[k] == Upper(starts[k])
  {
    FirstLettersAreStarts(name);
  }
}
