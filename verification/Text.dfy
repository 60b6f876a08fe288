/** Python's `str.strip`, `str.split` and `" ".join`, over the characters `str.isspace` accepts. */
module Text {
  predicate IsSpace(c: char) {
    || '\U{9}' <= c <= '\U{D}' || '\U{1C}' <= c <= '\U{20}' || c == '\U{85}' || c == '\U{A0}'
    || c == '\U{1680}' || '\U{2000}' <= c <= '\U{200A}' || c == '\U{2028}' || c == '\U{2029}'
    || c == '\U{202F}' || c == '\U{205F}' || c == '\U{3000}'
  }

  /** Empty, or with no white space at either end. */
  predicate Trimmed(s: string) {
    s == "" || (!IsSpace(s[0]) && !IsSpace(s[|s| - 1]))
  }

  function DropLeading(s: string): (t: string)
    ensures t == "" || !IsSpace(t[0])
    ensures |t| <= |s| && t == s[|s| - |t|..]
  {
    if s != "" && IsSpace(s[0]) then DropLeading(s[1..]) else s
  }

  function DropTrailing(s: string): (t: string)
    ensures t == "" || !IsSpace(t[|t| - 1])
    ensures t <= s
  {
    if s != "" && IsSpace(s[|s| - 1]) then DropTrailing(s[..|s| - 1]) else s
  }

  function Strip(s: string): (t: string)
    ensures Trimmed(t)
  {
    DropTrailing(DropLeading(s))
  }

  lemma StripKeepsTrimmed(s: string)
    requires Trimmed(s)
    ensures Strip(s) == s
  {
  }

  /** All characters are white space. */
  predicate Blank(s: string) {
    forall i :: 0 <= i < |s| ==> IsSpace(s[i])
  }

  lemma {:induction false} LeadingIsBlank(s: string)
    ensures Blank(s[..|s| - |DropLeading(s)|])
  {
    if s != "" && IsSpace(s[0]) {
      hide IsSpace;
      LeadingIsBlank(s[1..]);
      var n, m := |s| - |DropLeading(s)|, |s[1..]| - |DropLeading(s[1..])|;
      assert n == m + 1 && s[..n] == [s[0]] + s[1..][..m];
    }
  }

  lemma {:induction false} TrailingIsBlank(s: string)
    ensures Blank(s[|DropTrailing(s)|..])
  {
    hide IsSpace;
    if s != "" && IsSpace(s[|s| - 1]) {
      var front := s[..|s| - 1];
      TrailingIsBlank(front);
      var n := |DropTrailing(s)|;
      assert s[n..] == front[n..] + [s[|s| - 1]];
    }
  }

  /** Stripping removes white space at both ends and nothing else. */
  lemma StripIsExact(s: string) returns (before: string, after: string)
    ensures Blank(before) && Blank(after) && s == before + Strip(s) + after && Trimmed(Strip(s))
  {
    hide IsSpace, Blank, Trimmed, DropLeading, DropTrailing;
    var t := DropLeading(s);
    LeadingIsBlank(s);
    TrailingIsBlank(t);
    before, after := s[..|s| - |t|], t[|DropTrailing(t)|..];
    assert s == before + t && t == DropTrailing(t) + after;
  }

  lemma StripIsIdempotent(s: string)
    ensures Strip(Strip(s)) == Strip(s)
  {
    StripKeepsTrimmed(Strip(s));
  }

  predicate Word(w: string) {
    w != "" && forall i :: 0 <= i < |w| ==> !IsSpace(w[i])
  }

  predicate Words(ws: seq<string>) {
    forall i :: 0 <= i < |ws| ==> Word(ws[i])
  }

  function LeadingWord(s: string): (w: string)
    ensures w <= s && (forall i :: 0 <= i < |w| ==> !IsSpace(w[i]))
    ensures |w| < |s| ==> IsSpace(s[|w|])
  {
    if s == "" || IsSpace(s[0]) then "" else [s[0]] + LeadingWord(s[1..])
  }

  /** `s.split()`: the maximal runs of non-space characters. */
  function Split(s: string): (ws: seq<string>)
    ensures Words(ws)
    decreases |s|
  {
    var t := DropLeading(s);
    if t == "" then []
    else
      var w := LeadingWord(t);
      [w] + Split(t[|w|..])
  }

  function Join(ws: seq<string>): string {
    if ws == [] then ""
    else if |ws| == 1 then ws[0]
    else ws[0] + " " + Join(ws[1..])
  }

  /** `" ".join(s.split())`. */
  function Collapse(s: string): string {
    Join(Split(s))
  }

  lemma {:induction false} JoinHasNoNewline(ws: seq<string>)
    requires Words(ws)
    ensures '\n' !in Join(ws)
  {
    if |ws| > 0 {
      assert Word(ws[0]);
    }
    if |ws| > 1 {
      JoinHasNoNewline(ws[1..]);
    }
  }

  lemma {:induction false} LeadingWordOf(w: string, rest: string)
    requires Word(w) && (rest == "" || IsSpace(rest[0]))
    ensures LeadingWord(w + rest) == w
    decreases w
  {
    assert (w + rest)[1..] == w[1..] + rest;
    if |w| == 1 {
      assert (w + rest)[1..] == rest;
    } else {
      LeadingWordOf(w[1..], rest);
    }
  }

  /** A word up to the end or to a space is the first one that splitting finds. */
  lemma SplitFirstWord(w: string, rest: string)
    requires Word(w) && (rest == "" || IsSpace(rest[0]))
    ensures Split(w + rest) == [w] + Split(rest)
  {
    var s := w + rest;
    assert s[0] == w[0] && DropLeading(s) == s;
    hide IsSpace, DropLeading;
    LeadingWordOf(w, rest);
    assert s[|w|..] == rest;
  }

  lemma SplitNothing()
    ensures Split("") == []
  {
  }

  lemma SplitIgnoresLeadingSpace(s: string)
    ensures Split(" " + s) == Split(s)
  {
    assert (" " + s)[1..] == s;
    assert DropLeading(" " + s) == DropLeading(s);
  }

  lemma JoinIsFirstWordAndRest(ws: seq<string>)
    requires ws != []
    ensures Join(ws) == ws[0] + (if |ws| == 1 then "" else " " + Join(ws[1..]))
  {
  }

  /** Splitting the joined words gives the words back. */
  lemma {:induction false} SplitJoin(ws: seq<string>)
    requires Words(ws)
    ensures Split(Join(ws)) == ws
  {
    hide Split, DropLeading;
    if ws == [] {
      SplitNothing();
    } else {
      assert Word(ws[0]);
      JoinIsFirstWordAndRest(ws);
      hide Join, Word;
      SplitFirstWord(ws[0], if |ws| == 1 then "" else " " + Join(ws[1..]));
      if |ws| == 1 {
        SplitNothing();
      } else {
        SplitJoin(ws[1..]);
        SplitIgnoresLeadingSpace(Join(ws[1..]));
      }
      assert ws == [ws[0]] + ws[1..];
    }
  }

  lemma WordsAreCollapsed(w: string)
    requires Word(w)
    ensures Collapse(w) == w
  {
    hide Split, Word;
    assert w + "" == w;
    SplitFirstWord(w, "");
    SplitNothing();
    assert Split(w) == [w] + [] == [w];
  }

  /** The characters that are not white space, in order. */
  function Visible(s: string): string {
    if s == "" then "" else (if IsSpace(s[0]) then "" else [s[0]]) + Visible(s[1..])
  }

  lemma {:induction false} VisibleAppend(a: string, b: string)
    ensures Visible(a + b) == Visible(a) + Visible(b)
  {
    hide IsSpace;
    if a == "" {
      assert a + b == b;
    } else {
      assert (a + b)[1..] == a[1..] + b;
      VisibleAppend(a[1..], b);
    }
  }

  lemma {:induction false} BlankIsInvisible(s: string)
    requires Blank(s)
    ensures Visible(s) == ""
  {
    if s != "" {
      BlankIsInvisible(s[1..]);
    }
  }

  /** Splitting loses no visible character. */
  lemma {:induction false} SplitKeepsVisible(s: string)
    ensures Visible(Join(Split(s))) == Visible(s)
    decreases |s|
  {
    var t := DropLeading(s);
    hide IsSpace, Blank, DropLeading;
    LeadingIsBlank(s);
    BlankIsInvisible(s[..|s| - |t|]);
    VisibleAppend(s[..|s| - |t|], t);
    assert s == s[..|s| - |t|] + t;
    if t != "" {
      var w := LeadingWord(t);
      var rest := Split(t[|w|..]);
      SplitKeepsVisible(t[|w|..]);
      VisibleAppend(w, t[|w|..]);
      assert t == w + t[|w|..];
      JoinShowsFirst(w, rest);
    }
  }

  lemma JoinShowsFirst(w: string, rest: seq<string>)
    ensures Visible(Join([w] + rest)) == Visible(w) + Visible(Join(rest))
  {
    var ws := [w] + rest;
    assert ws[1..] == rest;
    if rest != [] {
      VisibleAppend(" ", Join(rest));
      assert Visible(" ") == "" by {
        BlankIsInvisible(" ");
      }
      VisibleAppend(w, " " + Join(rest));
      assert Join(ws) == w + (" " + Join(rest));
    }
  }

  /** No white space but single spaces between visible characters is left. */
  predicate SingleSpaced(s: string) {
    && Trimmed(s)
    && (forall i :: 0 <= i < |s| && IsSpace(s[i]) ==> s[i] == ' ')
    && (forall i :: 0 <= i < |s| - 1 ==> !(IsSpace(s[i]) && IsSpace(s[i + 1])))
  }

  lemma {:induction false} JoinedWordsAreSingleSpaced(ws: seq<string>)
    requires Words(ws)
    ensures SingleSpaced(Join(ws))
    ensures ws != [] ==> Join(ws) != "" && Join(ws)[0] == ws[0][0]
  {
    if ws != [] {
      assert Word(ws[0]);
      if |ws| > 1 {
        JoinedWordsAreSingleSpaced(ws[1..]);
        var tail, n := Join(ws[1..]), |ws[0]|;
        var s := ws[0] + " " + tail;
        assert s == Join(ws);
        assert forall i :: 0 <= i < |s| ==> s[i] == if i < n then ws[0][i] else if i == n then ' ' else tail[i - n - 1];
      }
    }
  }

  /** Collapsing keeps every visible character, in order, with single spaces between the words. */
  lemma CollapseIsExact(s: string)
    ensures Visible(Collapse(s)) == Visible(s) && SingleSpaced(Collapse(s))
  {
    hide Visible, SingleSpaced;
    SplitKeepsVisible(s);
    JoinedWordsAreSingleSpaced(Split(s));
  }

  /** Collapsing white space is idempotent and leaves no line break. */
  lemma CollapseIsCanonical(s: string)
    ensures Collapse(Collapse(s)) == Collapse(s)
    ensures '\n' !in Collapse(s)
  {
    SplitJoin(Split(s));
    JoinHasNoNewline(Split(s));
  }
}
