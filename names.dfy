/*
 * Name normalisation of civitai/client/client.py: `_norm` lower-cases a name,
 * replaces every maximal run of characters that are not letters or digits
 * (the class `[\W_]`) by one space or by nothing, and strips whitespace at both
 * ends. `_model_tag_same` and `_vae_model_same` compare normalised names.
 * Characters are taken as ASCII: `\w` is letters and digits plus `_`.
 */
module Names {

  /** Not in `[\W_]`: an ASCII letter or digit. */
  predicate IsWordChar(c: char) {
    'a' <= c <= 'z' || 'A' <= c <= 'Z' || '0' <= c <= '9'
  }

  /** `str.isspace()` on an ASCII character. */
  predicate IsSpace(c: char) {
    c == ' ' || 9 <= c as int <= 13 || 28 <= c as int <= 31
  }

  function LowerChar(c: char): char {
    if 'A' <= c <= 'Z' then (c as int - 'A' as int + 'a' as int) as char else c
  }

  /** `str.lower()`. */
  function Lower(s: string): string {
    seq(|s|, i requires 0 <= i < |s| => LowerChar(s[i]))
  }

  /** The longest prefix of letters and digits. */
  function TakeWord(s: string): (w: string)
    ensures forall i :: 0 <= i < |w| ==> IsWordChar(w[i])
    ensures s != [] && IsWordChar(s[0]) ==> w != []
  {
    if s != [] && IsWordChar(s[0]) then [s[0]] + TakeWord(s[1..]) else []
  }

  /** What follows the longest prefix of letters and digits. */
  function DropWord(s: string): (r: string)
    ensures |r| <= |s| && (r == [] || !IsWordChar(r[0]))
    ensures s != [] && IsWordChar(s[0]) ==> |r| < |s|
  {
    if s != [] && IsWordChar(s[0]) then DropWord(s[1..]) else s
  }

  /** What follows the longest prefix of characters in `[\W_]`. */
  function DropRun(s: string): (r: string)
    ensures |r| <= |s| && (r == [] || IsWordChar(r[0]))
    ensures s != [] && !IsWordChar(s[0]) ==> |r| < |s|
  {
    if s != [] && !IsWordChar(s[0]) then DropRun(s[1..]) else s
  }

  /** `re.sub(r'[\W_]+', rep, s)`: each maximal run of other characters becomes `rep`. */
  function SubRuns(s: string, rep: string): (r: string)
    ensures s != [] && IsWordChar(s[0]) ==> r != [] && r[0] == s[0]
    decreases |s|
  {
    if s == [] then []
    else if IsWordChar(s[0]) then [s[0]] + SubRuns(s[1..], rep)
    else rep + SubRuns(DropRun(s), rep)
  }

  function StripLeft(s: string): string {
    if s != [] && IsSpace(s[0]) then StripLeft(s[1..]) else s
  }

  function StripRight(s: string): string {
    if s != [] && IsSpace(s[|s| - 1]) then StripRight(s[..|s| - 1]) else s
  }

  /** `str.strip()`. */
  function Strip(s: string): string {
    StripRight(StripLeft(s))
  }

  /** `_norm(x, keep_space)`. */
  function Norm(x: string, keepSpace: bool): string {
    Strip(SubRuns(Lower(x), if keepSpace then " " else ""))
  }

  /** `_model_tag_same(x, y)`. */
  predicate ModelTagSame(x: string, y: string) {
    Norm(x, true) == Norm(y, true)
  }

  /** `_vae_model_same(x, y)`. */
  predicate VaeModelSame(x: string, y: string) {
    Norm(x, false) == Norm(y, false)
  }

  // ---------------------------------------------------------------------------
  // Reference description: the words of a name
  // ---------------------------------------------------------------------------

  predicate IsWord(w: string) {
    w != [] && forall i :: 0 <= i < |w| ==> IsWordChar(w[i])
  }

  /** The maximal runs of letters and digits, in order. */
  function Words(s: string): (ws: seq<string>)
    ensures forall k :: 0 <= k < |ws| ==> IsWord(ws[k])
    decreases |s|
  {
    if s == [] then []
    else if !IsWordChar(s[0]) then Words(DropRun(s))
    else [TakeWord(s)] + Words(DropWord(s))
  }

  /** `' '.join(ws)`. */
  function JoinSpace(ws: seq<string>): string {
    if ws == [] then "" else if |ws| == 1 then ws[0] else ws[0] + " " + JoinSpace(ws[1..])
  }

  /** `''.join(ws)`. */
  function Concat(ws: seq<string>): string {
    if ws == [] then "" else ws[0] + Concat(ws[1..])
  }

  /** The letters and digits of `s`, in order. */
  function WordChars(s: string): string {
    if s == [] then "" else (if IsWordChar(s[0]) then [s[0]] else "") + WordChars(s[1..])
  }

  // ---------------------------------------------------------------------------
  // Stripping
  // ---------------------------------------------------------------------------

  lemma {:induction false} StripRightAppend(a: string, b: string)
    requires StripRight(b) != []
    ensures StripRight(a + b) == a + StripRight(b)
    decreases |b|
  {
    if b != [] && IsSpace(b[|b| - 1]) {
      assert (a + b)[..|a + b| - 1] == a + b[..|b| - 1];
      StripRightAppend(a, b[..|b| - 1]);
    }
  }

  /** A run of letters and digits has no whitespace to strip. */
  lemma StripWord(w: string)
    requires forall i :: 0 <= i < |w| ==> IsWordChar(w[i])
    ensures StripLeft(w) == w && StripRight(w) == w
  {
  }

  // ---------------------------------------------------------------------------
  // `_norm` in terms of words
  // ---------------------------------------------------------------------------

  /** Substituting starting at a word keeps that whole word, then goes on from what follows it. */
  lemma {:induction false} SubRunsWord(s: string, rep: string)
    ensures SubRuns(s, rep) == TakeWord(s) + SubRuns(DropWord(s), rep)
    decreases |s|
  {
    if s != [] && IsWordChar(s[0]) {
      SubRunsWord(s[1..], rep);
    }
  }

  /** With `' '`, substitution is the words joined by spaces up to one space at the end. */
  lemma {:induction false} SpacedWords(s: string)
    requires s == [] || IsWordChar(s[0])
    ensures StripRight(SubRuns(s, " ")) == JoinSpace(Words(s))
    ensures Words(s) != [] <==> s != []
    decreases |s|
  {
    if s != [] {
      var r := DropWord(s);
      SubRunsWord(s, " ");
      if r == [] {
        SpacedLastWord(s);
      } else {
        var t := DropRun(r);
        SpacedWords(t);
        if t == [] {
          SpacedTrailingRun(s);
        } else {
          SpacedNextWord(s);
        }
      }
    }
  }

  lemma SpacedLastWord(s: string)
    requires s != [] && IsWordChar(s[0]) && DropWord(s) == []
    ensures StripRight(SubRuns(s, " ")) == JoinSpace(Words(s))
  {
    var w := TakeWord(s);
    SubRunsWord(s, " ");
    StripWord(w);
    assert SubRuns(DropWord(s), " ") == [];
    assert w + [] == w;
    assert Words(DropWord(s)) == [];
    assert Words(s) == [w] + [];
    assert [w] + [] == [w];
    assert JoinSpace([w]) == w;
  }

  lemma SpacedTrailingRun(s: string)
    requires s != [] && IsWordChar(s[0])
    requires DropWord(s) != [] && DropRun(DropWord(s)) == []
    ensures StripRight(SubRuns(s, " ")) == JoinSpace(Words(s))
  {
    var w, r := TakeWord(s), DropWord(s);
    SubRunsWord(s, " ");
    StripWord(w);
    assert SubRuns(r, " ") == " " + [];
    assert SubRuns(s, " ") == w + " ";
    assert (w + " ")[..|w + " "| - 1] == w;
    assert Words(r) == [];
    assert Words(s) == [w] + [];
  }

  lemma SpacedNextWord(s: string)
    requires s != [] && IsWordChar(s[0])
    requires DropWord(s) != [] && DropRun(DropWord(s)) != []
    requires var t := DropRun(DropWord(s));
      StripRight(SubRuns(t, " ")) == JoinSpace(Words(t)) && Words(t) != []
    ensures StripRight(SubRuns(s, " ")) == JoinSpace(Words(s))
  {
    var w, r := TakeWord(s), DropWord(s);
    var t := DropRun(r);
    SubRunsWord(s, " ");
    assert SubRuns(r, " ") == " " + SubRuns(t, " ");
    assert SubRuns(s, " ") == (w + " ") + SubRuns(t, " ");
    StripRightAppend(w + " ", SubRuns(t, " "));
    assert Words(r) == Words(t);
    assert Words(s) == [w] + Words(t);
  }

  /** With `''`, substitution is the words run together. */
  lemma {:induction false} TightWords(s: string)
    ensures SubRuns(s, "") == Concat(Words(s))
    decreases |s|
  {
    if s != [] {
      if !IsWordChar(s[0]) {
        TightWords(DropRun(s));
      } else {
        SubRunsWord(s, "");
        TightWords(DropWord(s));
      }
    }
  }

  lemma {:induction false} ConcatWordChars(ws: seq<string>)
    requires forall k :: 0 <= k < |ws| ==> IsWord(ws[k])
    ensures forall i :: 0 <= i < |Concat(ws)| ==> IsWordChar(Concat(ws)[i])
  {
    if ws != [] {
      ConcatWordChars(ws[1..]);
      forall i | 0 <= i < |Concat(ws)| ensures IsWordChar(Concat(ws)[i]) {
        if i >= |ws[0]| {
          assert Concat(ws)[i] == Concat(ws[1..])[i - |ws[0]|];
        }
      }
    }
  }

  /** Leading whitespace comes only from a leading run, which becomes the one space stripped. */
  lemma StripLeading(s: string)
    ensures StripLeft(SubRuns(s, " ")) == SubRuns(DropRun(s), " ")
    ensures Words(s) == Words(DropRun(s))
  {
    var t := DropRun(s);
    var u := SubRuns(t, " ");
    assert u == [] || !IsSpace(u[0]);
    if s != [] && !IsWordChar(s[0]) {
      assert SubRuns(s, " ") == " " + u;
      assert (" " + u)[1..] == u;
    }
  }

  /** `_norm(x)`: the words of the lower-cased name joined by single spaces. */
  lemma NormSpaced(x: string)
    ensures Norm(x, true) == JoinSpace(Words(Lower(x)))
  {
    var s := Lower(x);
    StripLeading(s);
    SpacedWords(DropRun(s));
  }

  /** `_norm(x, keep_space=False)`: the words of the lower-cased name run together. */
  lemma NormTight(x: string)
    ensures Norm(x, false) == Concat(Words(Lower(x)))
  {
    var s := Lower(x);
    TightWords(s);
    ConcatWordChars(Words(s));
    StripWord(SubRuns(s, ""));
  }

  // ---------------------------------------------------------------------------
  // Consequences
  // ---------------------------------------------------------------------------

  lemma {:induction false} WordCharsAppend(a: string, b: string)
    ensures WordChars(a + b) == WordChars(a) + WordChars(b)
  {
    if a == [] {
      assert a + b == b;
    } else {
      var h := if IsWordChar(a[0]) then [a[0]] else "";
      assert (a + b)[0] == a[0] && (a + b)[1..] == a[1..] + b;
      assert WordChars(a + b) == h + WordChars(a[1..] + b);
      assert WordChars(a) == h + WordChars(a[1..]);
      WordCharsAppend(a[1..], b);
      assert h + (WordChars(a[1..]) + WordChars(b)) == (h + WordChars(a[1..])) + WordChars(b);
    }
  }

  lemma {:induction false} WordCharsOfWord(w: string)
    requires forall i :: 0 <= i < |w| ==> IsWordChar(w[i])
    ensures WordChars(w) == w
  {
    if w != [] {
      WordCharsOfWord(w[1..]);
    }
  }

  lemma {:induction false} WordCharsJoin(ws: seq<string>)
    requires forall k :: 0 <= k < |ws| ==> IsWord(ws[k])
    ensures WordChars(JoinSpace(ws)) == Concat(ws)
  {
    if ws != [] {
      WordCharsOfWord(ws[0]);
      if |ws| == 1 {
        assert Concat(ws) == ws[0] + Concat([]);
        assert ws[0] + "" == ws[0];
      } else {
        var rest := JoinSpace(ws[1..]);
        assert JoinSpace(ws) == ws[0] + " " + rest;
        assert Concat(ws) == ws[0] + Concat(ws[1..]);
        WordCharsJoin(ws[1..]);
        WordCharsAppend(ws[0] + " ", rest);
        WordCharsAppend(ws[0], " ");
        assert WordChars(" ") == "" + WordChars([]);
        assert ws[0] + "" == ws[0];
      }
    }
  }

  /** Dropping the spaces of the spaced form gives the tight form. */
  lemma TightFromSpaced(x: string)
    ensures Norm(x, false) == WordChars(Norm(x, true))
  {
    NormSpaced(x);
    NormTight(x);
    WordCharsJoin(Words(Lower(x)));
  }

  /** Names that match as model tags also match as VAE model names. */
  lemma TagSameImpliesVaeSame(x: string, y: string)
    requires ModelTagSame(x, y)
    ensures VaeModelSame(x, y)
  {
    TightFromSpaced(x);
    TightFromSpaced(y);
  }
}
