/** Python `str` behaviour that the rest of the model relies on: the whitespace
    set of `str.isspace()`, `str.split()` with no separator, `str.strip()`,
    `" ".join(...)` and `"".join(reversed(...))`. */
module PyStr {

  /** The characters for which Python's `str.isspace()` is true; `split()` and
      `strip()` without arguments cut on exactly these. */
  predicate IsSpace(c: char) {
    ('\t' <= c <= '\r') || ('\U{1C}' <= c <= ' ') || c == '\U{85}' || c == '\U{A0}'
    || c == '\U{1680}' || ('\U{2000}' <= c <= '\U{200A}') || c == '\U{2028}'
    || c == '\U{2029}' || c == '\U{202F}' || c == '\U{205F}' || c == '\U{3000}'
  }

  /** A non-empty run of non-whitespace characters: what `split()` yields. */
  predicate IsWord(s: string) {
    s != [] && forall i :: 0 <= i < |s| ==> !IsSpace(s[i])
  }

  /** `"".join(reversed(s))` */
  function Reverse(s: string): (r: string)
    ensures |r| == |s|
  {
    seq(|s|, i requires 0 <= i < |s| => s[|s| - 1 - i])
  }

  lemma ReverseReverse(s: string)
    ensures Reverse(Reverse(s)) == s
  {
  }

  /** Length of the leading run of non-whitespace characters. */
  function WordLen(s: string): (n: nat)
    ensures n <= |s|
    ensures forall i :: 0 <= i < n ==> !IsSpace(s[i])
    ensures n < |s| ==> IsSpace(s[n])
  {
    if s == [] || IsSpace(s[0]) then 0 else 1 + WordLen(s[1..])
  }

  /** `s.split()`: the maximal runs of non-whitespace characters, in order. */
  function Words(s: string): (ws: seq<string>)
    ensures forall k :: 0 <= k < |ws| ==> IsWord(ws[k])
    decreases |s|
  {
    if s == [] then []
    else if IsSpace(s[0]) then Words(s[1..])
    else
      var n := WordLen(s);
      [s[..n]] + Words(s[n..])
  }

  /** `" ".join(ws)` */
  function Join(ws: seq<string>): string {
    if ws == [] then ""
    else if |ws| == 1 then ws[0]
    else ws[0] + " " + Join(ws[1..])
  }

  /** `sum(len(w) for w in ws)` */
  function TotalLen(ws: seq<string>): nat {
    if ws == [] then 0 else TotalLen(ws[..|ws| - 1]) + |ws[|ws| - 1]|
  }

  /** `s.lstrip()` */
  function StripStart(s: string): (t: string)
    ensures t == [] || !IsSpace(t[0])
  {
    if s != [] && IsSpace(s[0]) then StripStart(s[1..]) else s
  }

  /** `s.rstrip()` */
  function StripEnd(s: string): string {
    if s != [] && IsSpace(s[|s| - 1]) then StripEnd(s[..|s| - 1]) else s
  }

  /** `s.strip()`: no whitespace at either end, and the words are kept. */
  function Strip(s: string): (t: string)
    ensures t == [] || (!IsSpace(t[0]) && !IsSpace(t[|t| - 1]))
  {
    StripEndKeepsStart(StripStart(s));
    StripEnd(StripStart(s))
  }

  lemma StripEndKeepsStart(s: string)
    requires s == [] || !IsSpace(s[0])
    ensures var t := StripEnd(s); t == [] || (!IsSpace(t[0]) && !IsSpace(t[|t| - 1]))
  {
    if s != [] && IsSpace(s[|s| - 1]) {
      StripEndKeepsStart(s[..|s| - 1]);
    }
  }

  /** A word has nothing to strip. */
  lemma StripWord(w: string)
    requires IsWord(w)
    ensures Strip(w) == w
  {
    assert StripStart(w) == w;
    assert StripEnd(w) == w;
  }

  /** `s.lstrip(c)` for a single character `c`. */
  function StripStartChar(s: string, c: char): (t: string)
    ensures t == [] || t[0] != c
    ensures |t| <= |s| && t == s[|s| - |t|..]
  {
    if s != [] && s[0] == c then StripStartChar(s[1..], c) else s
  }

  // ---------------------------------------------------------------------------
  // Facts about split and join

  /** A word is its own only word. */
  lemma {:induction false} WordLenOfWord(w: string, rest: string)
    requires IsWord(w)
    requires rest == [] || IsSpace(rest[0])
    ensures WordLen(w + rest) == |w|
    decreases |w|
  {
    var s := w + rest;
    assert s[0] == w[0];
    if |w| == 1 {
      assert s[1..] == rest;
    } else {
      assert s[1..] == w[1..] + rest;
      WordLenOfWord(w[1..], rest);
    }
  }

  lemma WordsOfWord(w: string)
    requires IsWord(w)
    ensures Words(w) == [w]
  {
    WordLenOfWord(w, []);
    assert w + [] == w;
    assert w[|w|..] == [];
  }

  /** Splitting a single-space join of words gives the words back. */
  lemma {:induction false} WordsOfJoin(ws: seq<string>)
    requires forall k :: 0 <= k < |ws| ==> IsWord(ws[k])
    ensures Words(Join(ws)) == ws
  {
    if ws == [] {
    } else if |ws| == 1 {
      WordsOfWord(ws[0]);
    } else {
      var w, rest := ws[0], " " + Join(ws[1..]);
      var s := Join(ws);
      assert s == w + rest;
      WordLenOfWord(w, rest);
      assert s[..|w|] == w;
      assert s[|w|..] == rest;
      assert rest[1..] == Join(ws[1..]);
      WordsOfJoin(ws[1..]);
      assert ws == [w] + ws[1..];
    }
  }

  lemma {:induction false} JoinOne(w: string)
    ensures Join([w]) == w
  {
  }

  /** A single-space join of n >= 1 words is as long as the words plus n - 1 spaces. */
  lemma {:induction false} JoinLength(ws: seq<string>)
    requires ws != []
    ensures |Join(ws)| == TotalLen(ws) + |ws| - 1
  {
    if |ws| == 1 {
      assert ws[..0] == [];
    } else {
      JoinLength(ws[1..]);
      TotalLenCons(ws[0], ws[1..]);
      assert ws == [ws[0]] + ws[1..];
    }
  }

  lemma {:induction false} TotalLenCons(w: string, ws: seq<string>)
    ensures TotalLen([w] + ws) == |w| + TotalLen(ws)
    decreases |ws|
  {
    if ws == [] {
      assert ([w] + ws)[..0] == [];
    } else {
      var all := [w] + ws;
      assert all[..|all| - 1] == [w] + ws[..|ws| - 1];
      TotalLenCons(w, ws[..|ws| - 1]);
    }
  }

  /** Leading whitespace contributes no words. */
  lemma {:induction false} WordsStripStart(s: string)
    ensures Words(StripStart(s)) == Words(s)
    decreases |s|
  {
    if s != [] && IsSpace(s[0]) {
      WordsStripStart(s[1..]);
    }
  }

  lemma {:induction false} WordLenSnoc(s: string, c: char)
    requires IsSpace(c)
    ensures WordLen(s + [c]) == WordLen(s)
    decreases |s|
  {
    if s == [] {
      assert (s + [c])[0] == c;
    } else if !IsSpace(s[0]) {
      assert (s + [c])[1..] == s[1..] + [c];
      WordLenSnoc(s[1..], c);
    }
  }

  /** A trailing whitespace character contributes no words. */
  lemma {:induction false} WordsSnoc(s: string, c: char)
    requires IsSpace(c)
    ensures Words(s + [c]) == Words(s)
    decreases |s|
  {
    var t := s + [c];
    if s == [] {
      assert t[1..] == [];
    } else if IsSpace(s[0]) {
      assert t[1..] == s[1..] + [c];
      WordsSnoc(s[1..], c);
    } else {
      WordLenSnoc(s, c);
      var n := WordLen(s);
      assert t[..n] == s[..n];
      assert t[n..] == s[n..] + [c];
      WordsSnoc(s[n..], c);
    }
  }

  lemma {:induction false} WordsStripEnd(s: string)
    ensures Words(StripEnd(s)) == Words(s)
    decreases |s|
  {
    if s != [] && IsSpace(s[|s| - 1]) {
      var init := s[..|s| - 1];
      assert s == init + [s[|s| - 1]];
      WordsSnoc(init, s[|s| - 1]);
      WordsStripEnd(init);
    }
  }

  /** `s.strip().split() == s.split()`, and a line strips to "" exactly when it has no words. */
  lemma WordsStrip(s: string)
    ensures Words(Strip(s)) == Words(s)
    ensures Strip(s) == [] <==> Words(s) == []
  {
    WordsStripEnd(StripStart(s));
    WordsStripStart(s);
    var t := Strip(s);
    if t != [] {
      assert !IsSpace(t[0]);
      assert Words(t) != [];
    }
  }
}
